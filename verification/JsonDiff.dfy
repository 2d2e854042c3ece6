/** JSON documents and the relation that change detection decides. */
module JsonDocs {

  datatype Json =
    | Null
    | Bool(b: bool)
    | Num(v: real)
    | Str(s: string)
    | Arr(items: seq<Json>)
    | Obj(fields: map<string, Json>)

  const METADATA_KEY := "@metadata"
  const METADATA_ID := "@id"
  const METADATA_COLLECTION := "@collection"
  const METADATA_CHANGE_VECTOR := "@change-vector"
  const METADATA_LAST_MODIFIED := "@last-modified"

  /** Names the comparison skips, at every nesting depth. */
  predicate Ignored(name: string) {
    name in {METADATA_LAST_MODIFIED, METADATA_COLLECTION, METADATA_CHANGE_VECTOR, METADATA_ID}
  }

  /** The names that are not compared, as the server writes them. */
  lemma IgnoredExactly(name: string)
    ensures Ignored(name) <==> name == "@last-modified" || name == "@collection" || name == "@change-vector" || name == "@id"
    ensures METADATA_KEY == "@metadata"
  {
  }

  predicate IsScalar(j: Json) {
    j.Bool? || j.Num? || j.Str?
  }

  /** How `%v` renders a value; every theorem holds for every rendering. */
  type Printer = Json -> string

  // ---- the relation "unchanged" -------------------------------------------------

  ghost predicate SameObject(p: Printer, o: Json, n: Json)
    requires o.Obj? && n.Obj?
    decreases o, 0
  {
    && o.fields.Keys <= n.fields.Keys
    && (forall k :: k in n.fields && k !in o.fields ==> Ignored(k))
    && (forall k :: k in o.fields && k in n.fields && !Ignored(k) ==> SameField(p, o.fields[k], n.fields[k]))
  }

  /** A field present on both sides; a bool only asks that the old value be a bool or null. */
  ghost predicate SameField(p: Printer, o: Json, n: Json)
    decreases o, 1
  {
    match n
    case Num(_) => o == n
    case Str(_) => o == n
    case Bool(_) => o.Bool? || o.Null?
    case Null => o.Null?
    case Arr(_) => o.Arr? && SameArray(p, o, n)
    case Obj(_) => o.Obj? && SameObject(p, o, n)
  }

  ghost predicate SameArray(p: Printer, o: Json, n: Json)
    requires o.Arr? && n.Arr?
    decreases o, 0
  {
    && |o.items| == |n.items|
    && forall i :: 0 <= i < |o.items| ==> SameElement(p, o.items[i], n.items[i])
  }

  /** An array element; scalars match by printed form. */
  ghost predicate SameElement(p: Printer, o: Json, n: Json)
    decreases o, 1
  {
    match o
    case Obj(_) => n.Obj? && SameObject(p, o, n)
    case Arr(_) => n.Arr? && SameArray(p, o, n)
    case Null => n.Null?
    case _ => p(o) == p(n)
  }

  // ---- documents that can be compared without a panic ---------------------------

  ghost predicate ComparableObject(o: Json, n: Json)
    requires o.Obj? && n.Obj?
    decreases o, 0
  {
    forall k :: k in o.fields && k in n.fields && !Ignored(k) ==> ComparableField(o.fields[k], n.fields[k])
  }

  ghost predicate ComparableField(o: Json, n: Json)
    decreases o, 1
  {
    match n
    case Num(_) => o.Num? || o.Null?
    case Str(_) => o.Str? || o.Null?
    case Bool(_) => o.Bool? || o.Null?
    case Null => true
    case Arr(_) => o.Arr? ==> ComparableArray(o, n)
    case Obj(_) => o.Obj? ==> ComparableObject(o, n)
  }

  ghost predicate ComparableArray(o: Json, n: Json)
    requires o.Arr? && n.Arr?
    decreases o, 0
  {
    forall i :: 0 <= i < |o.items| && i < |n.items| ==> ComparableElement(o.items[i], n.items[i])
  }

  ghost predicate ComparableElement(o: Json, n: Json)
    decreases o, 1
  {
    match o
    case Obj(_) => n.Obj? ==> ComparableObject(o, n)
    case Arr(_) => n.Arr? ==> ComparableArray(o, n)
    case _ => true
  }

  // ---- the relation is reflexive, and implies comparability ----------------------

  lemma {:induction false} SameFieldReflexive(p: Printer, j: Json)
    ensures SameField(p, j, j) && SameElement(p, j, j)
  {
    match j
    case Obj(_) => SameObjectReflexive(p, j);
    case Arr(items) =>
      forall i | 0 <= i < |items| ensures SameElement(p, items[i], items[i]) {
        SameFieldReflexive(p, items[i]);
      }
    case _ =>
  }

  /** A document never differs from its own copy. */
  lemma {:induction false} SameObjectReflexive(p: Printer, j: Json)
    requires j.Obj?
    ensures SameObject(p, j, j)
    decreases j, 0
  {
    forall k | k in j.fields ensures SameField(p, j.fields[k], j.fields[k]) {
      SameFieldReflexive(p, j.fields[k]);
    }
  }

  lemma {:induction false} SameObjectComparable(p: Printer, o: Json, n: Json)
    requires o.Obj? && n.Obj? && SameObject(p, o, n)
    ensures ComparableObject(o, n)
    decreases o, 0
  {
    forall k | k in o.fields && k in n.fields && !Ignored(k)
      ensures ComparableField(o.fields[k], n.fields[k])
    {
      SameFieldComparable(p, o.fields[k], n.fields[k]);
    }
  }

  lemma {:induction false} SameFieldComparable(p: Printer, o: Json, n: Json)
    requires SameField(p, o, n)
    ensures ComparableField(o, n)
    decreases o, 1
  {
    if o.Obj? && n.Obj? { SameObjectComparable(p, o, n); }
    if o.Arr? && n.Arr? { SameArrayComparable(p, o, n); }
  }

  lemma {:induction false} SameArrayComparable(p: Printer, o: Json, n: Json)
    requires o.Arr? && n.Arr? && SameArray(p, o, n)
    ensures ComparableArray(o, n)
    decreases o, 0
  {
    forall i | 0 <= i < |o.items| ensures ComparableElement(o.items[i], n.items[i]) {
      assert SameElement(p, o.items[i], n.items[i]);
      if o.items[i].Obj? { SameObjectComparable(p, o.items[i], n.items[i]); }
      if o.items[i].Arr? { SameArrayComparable(p, o.items[i], n.items[i]); }
    }
  }
}

/** The two modes of the comparison as functions, and what each decides. */
module JsonChanges {
  import opened JsonDocs
  import Text

  datatype ChangeKind =
    | DocumentDeleted | DocumentAdded
    | FieldChanged | NewField | RemovedField
    | ArrayValueChanged | ArrayValueAdded | ArrayValueRemoved

  datatype Change = Change(name: string, newValue: Json, oldValue: Json, kind: ChangeKind)

  /** How a call ends; `Panicked` is the type-mismatch panic of the scalar comparers. */
  datatype Outcome = Panicked | Returned(value: bool)

  /** What the recording mode appends, or the panic it ends in. */
  datatype Report = Crashed | Changes(list: seq<Change>)

  /** `removed(o, n)` is the order in which the runtime lists the names of `o` that `n` lacks. */
  datatype Env = Env(render: Printer, removed: (Json, Json) -> seq<string>)

  ghost predicate ValidEnv(env: Env) {
    forall o: Json, n: Json :: o.Obj? && n.Obj? ==> Lists(env.removed(o, n), o, n)
  }

  ghost predicate Lists(names: seq<string>, o: Json, n: Json)
    requires o.Obj? && n.Obj?
  {
    && (forall k :: k in names <==> k in o.fields && k !in n.fields)
    && (forall i, j :: 0 <= i < j < |names| ==> names[i] != names[j])
  }

  function MinLength(o: Json, n: Json): nat
    requires o.Arr? && n.Arr?
  {
    if |o.items| < |n.items| then |o.items| else |n.items|
  }

  function MaxLength(o: Json, n: Json): nat
    requires o.Arr? && n.Arr?
  {
    if |o.items| < |n.items| then |n.items| else |o.items|
  }

  /** `isJSONFloatEqual`, `isJSONStringEqual` and `isJSONBoolEqual`. */
  function ScalarEqual(n: Json, o: Json): (out: Outcome)
    requires IsScalar(n)
    ensures out.Panicked? <==> !ComparableField(o, n)
    ensures out.Returned? && !n.Bool? ==> forall p: Printer :: out.value == SameField(p, o, n)
  {
    if o.Null? then Returned(false)
    else if (n.Num? && o.Num?) || (n.Str? && o.Str?) || (n.Bool? && o.Bool?) then Returned(o == n)
    else Panicked
  }

  // ---- fast mode ------------------------------------------------------------------

  ghost function FastObject(env: Env, o: Json, n: Json): Outcome
    requires o.Obj? && n.Obj?
    decreases o, 3, 0
  {
    Text.SortedSetProperties(n.fields.Keys);
    if env.removed(o, n) != [] then Returned(true) else FastFields(env, o, n, Text.SortedSet(n.fields.Keys))
  }

  ghost function FastFields(env: Env, o: Json, n: Json, names: seq<string>): Outcome
    requires o.Obj? && n.Obj? && forall k :: k in names ==> k in n.fields
    decreases o, 2, |names|
  {
    if names == [] then Returned(false)
    else
      var f := FastField(env, o, n, names[0]);
      if f == Returned(false) then FastFields(env, o, n, names[1..]) else f
  }

  ghost function FastField(env: Env, o: Json, n: Json, k: string): Outcome
    requires o.Obj? && n.Obj? && k in n.fields
    decreases o, 1, 0
  {
    if Ignored(k) then Returned(false)
    else if k !in o.fields then Returned(true)
    else
      var prev, next := o.fields[k], n.fields[k];
      match next
      case Bool(_) => if ScalarEqual(next, prev).Panicked? then Panicked else Returned(false)
      case Null => Returned(!prev.Null?)
      case Arr(_) => if prev.Arr? then FastArray(env, prev, next) else Returned(true)
      case Obj(_) => if prev.Obj? then FastObject(env, prev, next) else Returned(true)
      case _ =>
        var eq := ScalarEqual(next, prev);
        if eq.Panicked? then Panicked else Returned(!eq.value)
  }

  ghost function FastArray(env: Env, o: Json, n: Json): Outcome
    requires o.Arr? && n.Arr?
    decreases o, 3, 0
  {
    if |o.items| != |n.items| then Returned(true) else FastElements(env, o, n, 0, false)
  }

  ghost function FastElements(env: Env, o: Json, n: Json, i: nat, changed: bool): Outcome
    requires o.Arr? && n.Arr? && i <= MinLength(o, n)
    decreases o, 2, MinLength(o, n) - i
  {
    if i == MinLength(o, n) then Returned(changed)
    else
      var e := FastElement(env, o.items[i], n.items[i]);
      if e.Panicked? then e else FastElements(env, o, n, i + 1, changed || e.value)
  }

  ghost function FastElement(env: Env, prev: Json, next: Json): Outcome
    decreases prev, 4, 0
  {
    match prev
    case Obj(_) => if next.Obj? then FastObject(env, prev, next) else Returned(true)
    case Arr(_) => if next.Arr? then FastArray(env, prev, next) else Returned(true)
    case Null => Returned(!next.Null?)
    case _ => Returned(env.render(prev) != env.render(next))
  }

  // ---- recording mode -------------------------------------------------------------

  function Then(a: Report, b: Report): Report {
    if a.Crashed? || b.Crashed? then Crashed else Changes(a.list + b.list)
  }

  lemma ThenAssociative(a: Report, b: Report, c: Report)
    ensures Then(Then(a, b), c) == Then(a, Then(b, c))
  {
  }

  function RemovedChanges(names: seq<string>): seq<Change> {
    seq(|names|, i requires 0 <= i < |names| => Change(names[i], Null, Null, RemovedField))
  }

  ghost function ObjectReport(env: Env, o: Json, n: Json): Report
    requires o.Obj? && n.Obj?
    decreases o, 3, 0
  {
    Text.SortedSetProperties(n.fields.Keys);
    Then(Changes(RemovedChanges(env.removed(o, n))), FieldsReport(env, o, n, Text.SortedSet(n.fields.Keys)))
  }

  ghost function FieldsReport(env: Env, o: Json, n: Json, names: seq<string>): Report
    requires o.Obj? && n.Obj? && forall k :: k in names ==> k in n.fields
    decreases o, 2, |names|
  {
    if names == [] then Changes([])
    else Then(FieldReport(env, o, n, names[0]), FieldsReport(env, o, n, names[1..]))
  }

  ghost function FieldReport(env: Env, o: Json, n: Json, k: string): Report
    requires o.Obj? && n.Obj? && k in n.fields
    decreases o, 1, 0
  {
    var next := n.fields[k];
    if Ignored(k) then Changes([])
    else if k !in o.fields then Changes([Change(k, next, Null, NewField)])
    else
      var prev := o.fields[k];
      match next
      case Bool(_) => if ScalarEqual(next, prev).Panicked? then Crashed else Changes([])
      case Null => if prev.Null? then Changes([]) else Changes([Change(k, Null, prev, FieldChanged)])
      case Arr(_) =>
        if prev.Arr? then ElementsReport(env, prev, next, k, 0) else Changes([Change(k, next, prev, FieldChanged)])
      case Obj(_) =>
        if prev.Obj? then ObjectReport(env, prev, next) else Changes([Change(k, next, Null, FieldChanged)])
      case _ =>
        var eq := ScalarEqual(next, prev);
        if eq.Panicked? then Crashed
        else if eq.value then Changes([]) else Changes([Change(k, next, prev, FieldChanged)])
  }

  /** The report from position `i` on; past the shorter array every value is added or removed. */
  ghost function ElementsReport(env: Env, o: Json, n: Json, name: string, i: nat): Report
    requires o.Arr? && n.Arr? && i <= MaxLength(o, n)
    decreases o, 2, MaxLength(o, n) - i
  {
    if i == MaxLength(o, n) then Changes([])
    else Then(ElementReport(env, o, n, name, i), ElementsReport(env, o, n, name, i + 1))
  }

  ghost function ElementReport(env: Env, o: Json, n: Json, name: string, i: nat): Report
    requires o.Arr? && n.Arr? && i < MaxLength(o, n)
    decreases o, 1, 0
  {
    if i >= |n.items| then Changes([Change(name, Null, o.items[i], ArrayValueRemoved)])
    else if i >= |o.items| then Changes([Change(name, n.items[i], Null, ArrayValueAdded)])
    else
      var prev, next := o.items[i], n.items[i];
      match prev
      case Obj(_) =>
        if next.Obj? then ObjectReport(env, prev, next) else Changes([Change(name, next, prev, ArrayValueAdded)])
      case Arr(_) =>
        if next.Arr? then ElementsReport(env, prev, next, name, 0)
        else Changes([Change(name, next, prev, ArrayValueChanged)])
      case Null =>
        if next.Null? then Changes([]) else Changes([Change(name, next, prev, ArrayValueChanged)])
      case _ =>
        if env.render(prev) == env.render(next) then Changes([])
        else Changes([Change(name, next, prev, ArrayValueChanged)])
  }

  // ---- what the modes decide ------------------------------------------------------

  /** `false` decides sameness, and a panic means the documents were not comparable. */
  ghost predicate FastVerdict(out: Outcome, same: bool, comparable: bool) {
    && (out == Returned(false) <==> same)
    && (out.Panicked? ==> !comparable)
  }

  /** The panic decides comparability; an empty report decides sameness. */
  ghost predicate ReportVerdict(rep: Report, same: bool, comparable: bool) {
    && (rep.Crashed? <==> !comparable)
    && (rep == Changes([]) <==> same)
  }

  ghost predicate FieldUnchanged(p: Printer, o: Json, n: Json, k: string)
    requires o.Obj? && n.Obj? && k in n.fields
  {
    Ignored(k) || (k in o.fields && SameField(p, o.fields[k], n.fields[k]))
  }

  ghost predicate FieldComparable(o: Json, n: Json, k: string)
    requires o.Obj? && n.Obj? && k in n.fields
  {
    k in o.fields && !Ignored(k) ==> ComparableField(o.fields[k], n.fields[k])
  }

  lemma ByField(env: Env, o: Json, n: Json, names: seq<string>)
    requires ValidEnv(env) && o.Obj? && n.Obj? && forall k :: k in names <==> k in n.fields
    ensures SameObject(env.render, o, n) <==>
            env.removed(o, n) == [] && forall k :: k in names ==> FieldUnchanged(env.render, o, n, k)
    ensures ComparableObject(o, n) <==> forall k :: k in names ==> FieldComparable(o, n, k)
  {
    var gone := env.removed(o, n);
    assert Lists(gone, o, n);
    assert gone == [] <==> o.fields.Keys <= n.fields.Keys by {
      if gone != [] { assert gone[0] in gone; }
      if gone == [] { assert forall k :: k in o.fields && k !in n.fields ==> k in gone; }
    }
    if gone == [] && forall k :: k in names ==> FieldUnchanged(env.render, o, n, k) {
      forall k | k in o.fields && k in n.fields && !Ignored(k)
        ensures SameField(env.render, o.fields[k], n.fields[k])
      {
        assert FieldUnchanged(env.render, o, n, k);
      }
    }
    if forall k :: k in names ==> FieldComparable(o, n, k) {
      forall k | k in o.fields && k in n.fields && !Ignored(k)
        ensures ComparableField(o.fields[k], n.fields[k])
      {
        assert FieldComparable(o, n, k);
      }
    }
  }

  /** The fast mode decides the relation. */
  lemma {:induction false} FastDecidesSame(env: Env, o: Json, n: Json)
    requires ValidEnv(env) && o.Obj? && n.Obj?
    ensures FastVerdict(FastObject(env, o, n), SameObject(env.render, o, n), ComparableObject(o, n))
    decreases o, 3, 0
  {
    var names := Text.SortedSet(n.fields.Keys);
    Text.SortedSetProperties(n.fields.Keys);
    ByField(env, o, n, names);
    FastFieldsDecide(env, o, n, names);
  }

  lemma {:induction false} FastFieldsDecide(env: Env, o: Json, n: Json, names: seq<string>)
    requires ValidEnv(env) && o.Obj? && n.Obj? && forall k :: k in names ==> k in n.fields
    ensures FastVerdict(FastFields(env, o, n, names), forall k :: k in names ==> FieldUnchanged(env.render, o, n, k),
                        forall k :: k in names ==> FieldComparable(o, n, k))
    decreases o, 2, |names|
  {
    if names != [] {
      FastFieldDecides(env, o, n, names[0]);
      FastFieldsDecide(env, o, n, names[1..]);
      assert names == [names[0]] + names[1..];
    }
  }

  lemma {:induction false} FastFieldDecides(env: Env, o: Json, n: Json, k: string)
    requires ValidEnv(env) && o.Obj? && n.Obj? && k in n.fields
    ensures FastVerdict(FastField(env, o, n, k), FieldUnchanged(env.render, o, n, k), FieldComparable(o, n, k))
    decreases o, 1, 0
  {
    if !Ignored(k) && k in o.fields {
      var prev, next := o.fields[k], n.fields[k];
      if prev.Obj? && next.Obj? { FastDecidesSame(env, prev, next); }
      if prev.Arr? && next.Arr? { FastArrayDecides(env, prev, next); }
    }
  }

  lemma {:induction false} FastArrayDecides(env: Env, o: Json, n: Json)
    requires ValidEnv(env) && o.Arr? && n.Arr?
    ensures FastVerdict(FastArray(env, o, n), SameArray(env.render, o, n), ComparableArray(o, n))
    decreases o, 3, 0
  {
    if |o.items| == |n.items| { FastElementsDecide(env, o, n, 0, false); }
  }

  lemma {:induction false} FastElementsDecide(env: Env, o: Json, n: Json, i: nat, changed: bool)
    requires ValidEnv(env) && o.Arr? && n.Arr? && i <= MinLength(o, n)
    ensures FastVerdict(FastElements(env, o, n, i, changed),
                        !changed && forall j :: i <= j < MinLength(o, n) ==> SameElement(env.render, o.items[j], n.items[j]),
                        forall j :: i <= j < MinLength(o, n) ==> ComparableElement(o.items[j], n.items[j]))
    decreases o, 2, MinLength(o, n) - i
  {
    if i < MinLength(o, n) {
      FastElementDecides(env, o.items[i], n.items[i]);
      var e := FastElement(env, o.items[i], n.items[i]);
      if e.Returned? { FastElementsDecide(env, o, n, i + 1, changed || e.value); }
    }
  }

  lemma {:induction false} FastElementDecides(env: Env, prev: Json, next: Json)
    requires ValidEnv(env)
    ensures FastVerdict(FastElement(env, prev, next), SameElement(env.render, prev, next), ComparableElement(prev, next))
    decreases prev, 4, 0
  {
    if prev.Obj? && next.Obj? { FastDecidesSame(env, prev, next); }
    if prev.Arr? && next.Arr? { FastArrayDecides(env, prev, next); }
  }

  /** The recording mode panics exactly on incomparable documents and reports nothing exactly for unchanged ones. */
  lemma {:induction false} ReportDecidesSame(env: Env, o: Json, n: Json)
    requires ValidEnv(env) && o.Obj? && n.Obj?
    ensures ReportVerdict(ObjectReport(env, o, n), SameObject(env.render, o, n), ComparableObject(o, n))
    decreases o, 3, 0
  {
    var names := Text.SortedSet(n.fields.Keys);
    Text.SortedSetProperties(n.fields.Keys);
    ByField(env, o, n, names);
    FieldsReportDecides(env, o, n, names);
  }

  lemma {:induction false} FieldsReportDecides(env: Env, o: Json, n: Json, names: seq<string>)
    requires ValidEnv(env) && o.Obj? && n.Obj? && forall k :: k in names ==> k in n.fields
    ensures ReportVerdict(FieldsReport(env, o, n, names), forall k :: k in names ==> FieldUnchanged(env.render, o, n, k),
                          forall k :: k in names ==> FieldComparable(o, n, k))
    decreases o, 2, |names|
  {
    if names != [] {
      FieldReportDecides(env, o, n, names[0]);
      FieldsReportDecides(env, o, n, names[1..]);
      assert names == [names[0]] + names[1..];
    }
  }

  lemma {:induction false} FieldReportDecides(env: Env, o: Json, n: Json, k: string)
    requires ValidEnv(env) && o.Obj? && n.Obj? && k in n.fields
    ensures ReportVerdict(FieldReport(env, o, n, k), FieldUnchanged(env.render, o, n, k), FieldComparable(o, n, k))
    decreases o, 1, 0
  {
    if !Ignored(k) && k in o.fields {
      var prev, next := o.fields[k], n.fields[k];
      if prev.Obj? && next.Obj? { ReportDecidesSame(env, prev, next); }
      if prev.Arr? && next.Arr? { ArrayReportDecides(env, prev, next, k); }
    }
  }

  lemma {:induction false} ArrayReportDecides(env: Env, o: Json, n: Json, name: string)
    requires ValidEnv(env) && o.Arr? && n.Arr?
    ensures ReportVerdict(ElementsReport(env, o, n, name, 0), SameArray(env.render, o, n), ComparableArray(o, n))
    decreases o, 3, 0
  {
    ElementsReportDecides(env, o, n, name, 0);
  }

  /** The common positions from `i` on. */
  ghost predicate SameFrom(p: Printer, o: Json, n: Json, i: nat)
    requires o.Arr? && n.Arr?
  {
    forall j :: i <= j < MinLength(o, n) ==> SameElement(p, o.items[j], n.items[j])
  }

  ghost predicate ComparableFrom(o: Json, n: Json, i: nat)
    requires o.Arr? && n.Arr?
  {
    forall j :: i <= j < MinLength(o, n) ==> ComparableElement(o.items[j], n.items[j])
  }

  lemma FromNext(p: Printer, o: Json, n: Json, i: nat)
    requires o.Arr? && n.Arr? && i < MinLength(o, n)
    ensures SameFrom(p, o, n, i) <==> SameElement(p, o.items[i], n.items[i]) && SameFrom(p, o, n, i + 1)
    ensures ComparableFrom(o, n, i) <==> ComparableElement(o.items[i], n.items[i]) && ComparableFrom(o, n, i + 1)
  {
  }

  lemma {:induction false} ElementsReportDecides(env: Env, o: Json, n: Json, name: string, i: nat)
    requires ValidEnv(env) && o.Arr? && n.Arr? && i <= MaxLength(o, n)
    ensures ReportVerdict(ElementsReport(env, o, n, name, i),
                          (i == MaxLength(o, n) || |o.items| == |n.items|) && SameFrom(env.render, o, n, i), ComparableFrom(o, n, i))
    decreases o, 2, MaxLength(o, n) - i
  {
    if i < MinLength(o, n) {
      ElementReportDecides(env, o, n, name, i);
      ElementsReportDecides(env, o, n, name, i + 1);
      FromNext(env.render, o, n, i);
    } else if i < MaxLength(o, n) {
      ElementsReportDecides(env, o, n, name, i + 1);
    }
  }

  lemma {:induction false} ElementReportDecides(env: Env, o: Json, n: Json, name: string, i: nat)
    requires ValidEnv(env) && o.Arr? && n.Arr? && i < MinLength(o, n)
    ensures ReportVerdict(ElementReport(env, o, n, name, i), SameElement(env.render, o.items[i], n.items[i]),
                          ComparableElement(o.items[i], n.items[i]))
    decreases o, 1, 0
  {
    var prev, next := o.items[i], n.items[i];
    if prev.Obj? && next.Obj? { ReportDecidesSame(env, prev, next); }
    if prev.Arr? && next.Arr? { ArrayReportDecides(env, prev, next, name); }
  }

  /** A bool that changes is no change: the result of its comparison is dropped. */
  lemma BoolChangeUnnoticed(env: Env, o: Json, k: string, b: bool)
    requires ValidEnv(env) && o.Obj? && k in o.fields && o.fields[k].Bool?
    ensures FastObject(env, o, Obj(o.fields[k := Bool(b)])) == Returned(false)
    ensures ObjectReport(env, o, Obj(o.fields[k := Bool(b)])) == Changes([])
  {
    var n := Obj(o.fields[k := Bool(b)]);
    SameObjectReflexive(env.render, o);
    assert SameObject(env.render, o, n);
    FastDecidesSame(env, o, n);
    ReportDecidesSame(env, o, n);
  }

  /** The two modes agree on every pair of documents the recording mode does not panic on. */
  lemma ModesAgree(env: Env, o: Json, n: Json)
    requires ValidEnv(env) && o.Obj? && n.Obj? && ComparableObject(o, n)
    ensures ObjectReport(env, o, n).Changes?
    ensures FastObject(env, o, n) == Returned(ObjectReport(env, o, n).list != [])
  {
    FastDecidesSame(env, o, n);
    ReportDecidesSame(env, o, n);
  }
}
