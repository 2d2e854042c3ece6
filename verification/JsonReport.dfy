/** What the recording mode lists: the change at every place where the documents differ, in order. */
module JsonReports {
  import opened Wrappers
  import opened JsonDocs
  import opened JsonChanges
  import Text

  /** A place in a document. */
  datatype Step = Field(name: string) | Index(i: nat)

  type Path = seq<Step>

  // ---- what changed at a place ----------------------------------------------------

  /** A name that only the old object has is removed; one that only the new object has is new unless it is ignored; a
      number, string or null that differs, an array or an object in place of something else is a changed field. */
  function FieldChange(o: map<string, Json>, n: map<string, Json>, k: string): Option<Change> {
    if k !in n then
      if k in o then Some(Change(k, Null, Null, RemovedField)) else None
    else if Ignored(k) then None
    else if k !in o then Some(Change(k, n[k], Null, NewField))
    else if Kept(o[k], n[k]) then None
    else if n[k].Obj? then Some(Change(k, n[k], Null, FieldChanged))   // the old value is not recorded
    else Some(Change(k, n[k], o[k], FieldChanged))
  }

  /** No change is recorded at the field itself: bools never are, arrays and objects are compared inside. */
  predicate Kept(o: Json, n: Json) {
    match n
    case Bool(_) => true
    case Arr(_) => o.Arr?
    case Obj(_) => o.Obj?
    case _ => o == n
  }

  /** Positions past the shorter array are removed or added; at a common one arrays and objects are compared inside. */
  function ElementChange(render: Printer, o: seq<Json>, n: seq<Json>, name: string, i: nat): Option<Change> {
    if i >= |n| then
      if i < |o| then Some(Change(name, Null, o[i], ArrayValueRemoved)) else None
    else if i >= |o| then Some(Change(name, n[i], Null, ArrayValueAdded))
    else if o[i].Obj? then
      if n[i].Obj? then None else Some(Change(name, n[i], o[i], ArrayValueAdded))
    else if o[i].Arr? then
      if n[i].Arr? then None else Some(Change(name, n[i], o[i], ArrayValueChanged))
    else if (if o[i].Null? then n[i].Null? else render(o[i]) == render(n[i])) then None
    else Some(Change(name, n[i], o[i], ArrayValueChanged))
  }

  /** The change recorded at a place, if any; `name` is the last field name on the way. */
  function ChangeAt(render: Printer, o: Json, n: Json, name: string, p: Path): Option<Change>
    decreases |p|
  {
    if p == [] then None
    else
      match p[0]
      case Field(k) =>
        if !o.Obj? || !n.Obj? then None
        else if |p| == 1 then FieldChange(o.fields, n.fields, k)
        else if k in o.fields && k in n.fields && !Ignored(k) then ChangeAt(render, o.fields[k], n.fields[k], k, p[1..])
        else None
      case Index(i) =>
        if !o.Arr? || !n.Arr? then None
        else if |p| == 1 then ElementChange(render, o.items, n.items, name, i)
        else if i < |o.items| && i < |n.items| then ChangeAt(render, o.items[i], n.items[i], name, p[1..])
        else None
  }

  /** Which of two places is listed first: removed names before the others, those in sorted order, positions in order. */
  ghost predicate Before(o: Json, n: Json, p: Path, q: Path)
    decreases |p|
  {
    && p != [] && q != []
    && if p[0] != q[0] then HeadBefore(o, n, p[0], q[0])
       else
         match p[0]
         case Field(k) => o.Obj? && n.Obj? && k in o.fields && k in n.fields && Before(o.fields[k], n.fields[k], p[1..], q[1..])
         case Index(i) => o.Arr? && n.Arr? && i < |o.items| && i < |n.items| && Before(o.items[i], n.items[i], p[1..], q[1..])
  }

  ghost predicate HeadBefore(o: Json, n: Json, a: Step, b: Step) {
    match a
    case Field(k) => b.Field? && o.Obj? && n.Obj? && (k !in n.fields || (b.name in n.fields && Text.Less(k, b.name)))
    case Index(i) => b.Index? && i < b.i
  }

  /** No place is listed twice. */
  lemma {:induction false} BeforeIrreflexive(o: Json, n: Json, p: Path)
    ensures !Before(o, n, p, p)
    decreases |p|
  {
    if p != [] {
      match p[0]
      case Field(k) =>
        if o.Obj? && n.Obj? && k in o.fields && k in n.fields { BeforeIrreflexive(o.fields[k], n.fields[k], p[1..]); }
      case Index(i) =>
        if o.Arr? && n.Arr? && i < |o.items| && i < |n.items| { BeforeIrreflexive(o.items[i], n.items[i], p[1..]); }
    }
  }

  // ---- explaining a list of changes -----------------------------------------------

  ghost predicate At(render: Printer, o: Json, n: Json, name: string, p: Path, c: Change) {
    ChangeAt(render, o, n, name, p) == Some(c)
  }

  /** Each change is the one at its place, within the scope. */
  ghost predicate Sound(render: Printer, o: Json, n: Json, name: string, scope: iset<Step>, paths: seq<Path>, list: seq<Change>) {
    && |paths| == |list|
    && forall i :: 0 <= i < |paths| ==> paths[i] != [] && paths[i][0] in scope && At(render, o, n, name, paths[i], list[i])
  }

  /** Each place of the scope with a change is listed. */
  ghost predicate Complete(render: Printer, o: Json, n: Json, name: string, scope: iset<Step>, paths: seq<Path>) {
    forall p: Path :: p != [] && p[0] in scope && ChangeAt(render, o, n, name, p).Some? ==> p in paths
  }

  ghost predicate Ordered(o: Json, n: Json, paths: seq<Path>) {
    forall i, j :: 0 <= i < j < |paths| ==> Before(o, n, paths[i], paths[j])
  }

  ghost predicate Explains(render: Printer, o: Json, n: Json, name: string, scope: iset<Step>, paths: seq<Path>, list: seq<Change>) {
    Sound(render, o, n, name, scope, paths, list) && Complete(render, o, n, name, scope, paths) && Ordered(o, n, paths)
  }

  lemma ExplainsNone(render: Printer, o: Json, n: Json, name: string, scope: iset<Step>)
    requires forall p: Path :: p != [] && p[0] in scope ==> ChangeAt(render, o, n, name, p).None?
    ensures Explains(render, o, n, name, scope, [], [])
  {
  }

  lemma ExplainsOne(render: Printer, o: Json, n: Json, name: string, step: Step, c: Change)
    requires At(render, o, n, name, [step], c)
    requires forall p: Path :: |p| > 1 && p[0] == step ==> ChangeAt(render, o, n, name, p).None?
    ensures Explains(render, o, n, name, iset{step}, [[step]], [c])
  {
    forall p: Path | p != [] && p[0] in iset{step} && ChangeAt(render, o, n, name, p).Some? ensures p in [[step]] {
      assert |p| == 1 && p == [step];
    }
  }

  /** Two lists one after the other. */
  lemma ExplainsJoin(render: Printer, o: Json, n: Json, name: string, a: iset<Step>, pa: seq<Path>, la: seq<Change>, b: iset<Step>, pb: seq<Path>, lb: seq<Change>)
    requires Explains(render, o, n, name, a, pa, la) && Explains(render, o, n, name, b, pb, lb)
    requires forall x, y :: x in a && y in b ==> x != y && HeadBefore(o, n, x, y)
    ensures Explains(render, o, n, name, a + b, pa + pb, la + lb)
  {
    forall i, j | 0 <= i < j < |pa + pb| ensures Before(o, n, (pa + pb)[i], (pa + pb)[j]) {
      if i < |pa| <= j {
        assert pa[i][0] in a && pb[j - |pa|][0] in b;
      } else if j < |pa| {
        assert Before(o, n, pa[i], pa[j]);
      } else {
        assert Before(o, n, pb[i - |pa|], pb[j - |pa|]);
      }
    }
  }

  /** The places below one step. */
  function Below(step: Step, paths: seq<Path>): (r: seq<Path>)
    ensures |r| == |paths| && forall i :: 0 <= i < |r| ==> r[i] == [step] + paths[i]
  {
    seq(|paths|, i requires 0 <= i < |paths| => [step] + paths[i])
  }

  lemma BelowMember(step: Step, paths: seq<Path>, q: Path)
    requires q in paths
    ensures [step] + q in Below(step, paths)
  {
    var i :| 0 <= i < |paths| && paths[i] == q;
    assert Below(step, paths)[i] == [step] + q;
  }

  /** A comparison inside, seen from outside. */
  lemma ExplainsBelow(render: Printer, o: Json, n: Json, name: string, step: Step, o': Json, n': Json, name': string, all: iset<Step>, paths: seq<Path>, list: seq<Change>)
    requires Explains(render, o', n', name', all, paths, list) && forall x :: x in all
    requires ChangeAt(render, o, n, name, [step]).None?
    requires forall p: Path :: p != [] ==> ChangeAt(render, o, n, name, [step] + p) == ChangeAt(render, o', n', name', p)
    requires forall p: Path, q: Path :: Before(o', n', p, q) ==> Before(o, n, [step] + p, [step] + q)
    ensures Explains(render, o, n, name, iset{step}, Below(step, paths), list)
  {
    var below := Below(step, paths);
    forall i | 0 <= i < |below| ensures below[i] != [] && below[i][0] in iset{step} && At(render, o, n, name, below[i], list[i]) {
      assert At(render, o', n', name', paths[i], list[i]);
    }
    forall p: Path | p != [] && p[0] in iset{step} && ChangeAt(render, o, n, name, p).Some? ensures p in below {
      var q := p[1..];
      assert p == [step] + q;
      assert q != [] && q[0] in all;
      BelowMember(step, paths, q);
    }
    OrderedBelow(o, n, step, o', n', paths);
  }

  lemma OrderedBelow(o: Json, n: Json, step: Step, o': Json, n': Json, paths: seq<Path>)
    requires Ordered(o', n', paths) && forall p: Path, q: Path :: Before(o', n', p, q) ==> Before(o, n, [step] + p, [step] + q)
    ensures Ordered(o, n, Below(step, paths))
  {
    var below := Below(step, paths);
    forall i, j | 0 <= i < j < |below| ensures Before(o, n, below[i], below[j]) {
      assert Before(o', n', paths[i], paths[j]);
    }
  }

  // ---- the report is explained ----------------------------------------------------

  ghost function All(): iset<Step> {
    iset s: Step | s.Field? || s.Index?
  }

  ghost function RemovedScope(o: Json, n: Json): iset<Step>
    requires o.Obj? && n.Obj?
  {
    iset s: Step | s.Field? && s.name in o.fields && s.name !in n.fields
  }

  ghost function NamesScope(names: seq<string>): iset<Step> {
    iset s: Step | s.Field? && s.name in names
  }

  ghost function IndexScope(i: nat): iset<Step> {
    iset s: Step | s.Index? && s.i >= i
  }

  lemma ExplainsWiden(render: Printer, o: Json, n: Json, name: string, a: iset<Step>, b: iset<Step>, paths: seq<Path>, list: seq<Change>)
    requires Explains(render, o, n, name, a, paths, list) && a <= b
    requires forall p: Path :: p != [] && p[0] in b && p[0] !in a ==> ChangeAt(render, o, n, name, p).None?
    ensures Explains(render, o, n, name, b, paths, list)
  {
  }

  function Singles(names: seq<string>): (r: seq<Path>)
    ensures |r| == |names| && forall i :: 0 <= i < |r| ==> r[i] == [Field(names[i])]
  {
    seq(|names|, i requires 0 <= i < |names| => [Field(names[i])])
  }

  lemma RemovedExplained(render: Printer, o: Json, n: Json, name: string, removed: seq<string>)
    requires o.Obj? && n.Obj? && Lists(removed, o, n)
    ensures Explains(render, o, n, name, RemovedScope(o, n), Singles(removed), RemovedChanges(removed))
  {
    var paths := Singles(removed);
    forall p: Path | p != [] && p[0] in RemovedScope(o, n) && ChangeAt(render, o, n, name, p).Some? ensures p in paths {
      assert |p| == 1;
      var i :| 0 <= i < |removed| && removed[i] == p[0].name;
      assert paths[i] == p;
    }
    forall i | 0 <= i < |paths| ensures paths[i] != [] && paths[i][0] in RemovedScope(o, n) && At(render, o, n, name, paths[i], RemovedChanges(removed)[i]) {
      assert removed[i] in removed;
    }
    forall i, j | 0 <= i < j < |paths| ensures Before(o, n, paths[i], paths[j]) { assert removed[i] in removed && removed[i] != removed[j]; }
  }

  lemma {:induction false} ObjectExplained(env: Env, o: Json, n: Json, name: string) returns (paths: seq<Path>)
    requires ValidEnv(env) && o.Obj? && n.Obj? && ObjectReport(env, o, n).Changes?
    ensures Explains(env.render, o, n, name, All(), paths, ObjectReport(env, o, n).list)
    decreases o, 3, 0
  {
    var names, removed := Text.SortedSet(n.fields.Keys), env.removed(o, n);
    Text.SortedSetProperties(n.fields.Keys);
    RemovedExplained(env.render, o, n, name, removed);
    var later := FieldsExplained(env, o, n, name, names);
    paths := Singles(removed) + later;
    ObjectJoin(env, o, n, name, names, later);
  }

  lemma ObjectJoin(env: Env, o: Json, n: Json, name: string, names: seq<string>, later: seq<Path>)
    requires ValidEnv(env) && o.Obj? && n.Obj? && ObjectReport(env, o, n).Changes? && names == Text.SortedSet(n.fields.Keys)
    requires (forall k :: k in names <==> k in n.fields) && FieldsReport(env, o, n, names).Changes?
    requires Explains(env.render, o, n, name, RemovedScope(o, n), Singles(env.removed(o, n)), RemovedChanges(env.removed(o, n)))
    requires Explains(env.render, o, n, name, NamesScope(names), later, FieldsReport(env, o, n, names).list)
    ensures Explains(env.render, o, n, name, All(), Singles(env.removed(o, n)) + later, ObjectReport(env, o, n).list)
  {
    var a, b := RemovedScope(o, n), NamesScope(names);
    var pa, la := Singles(env.removed(o, n)), RemovedChanges(env.removed(o, n));
    ExplainsJoin(env.render, o, n, name, a, pa, la, b, later, FieldsReport(env, o, n, names).list);
    ExplainsWiden(env.render, o, n, name, a + b, All(), pa + later, ObjectReport(env, o, n).list);
  }

  lemma {:induction false} FieldsExplained(env: Env, o: Json, n: Json, name: string, names: seq<string>) returns (paths: seq<Path>)
    requires ValidEnv(env) && o.Obj? && n.Obj? && (forall k :: k in names ==> k in n.fields) && Text.StrictlySorted(names)
    requires FieldsReport(env, o, n, names).Changes?
    ensures Explains(env.render, o, n, name, NamesScope(names), paths, FieldsReport(env, o, n, names).list)
    decreases o, 2, |names|
  {
    if names == [] {
      paths := [];
      ExplainsNone(env.render, o, n, name, NamesScope(names));
    } else {
      var k, rest := names[0], names[1..];
      FirstIsLeast(names);
      var first := FieldExplained(env, o, n, name, k);
      var later := FieldsExplained(env, o, n, name, rest);
      paths := first + later;
      ExplainsJoin(env.render, o, n, name, iset{Field(k)}, first, FieldReport(env, o, n, k).list,
                   NamesScope(rest), later, FieldsReport(env, o, n, rest).list);
      assert iset{Field(k)} + NamesScope(rest) == NamesScope(names);
    }
  }

  lemma FirstIsLeast(names: seq<string>)
    requires names != [] && Text.StrictlySorted(names)
    ensures Text.StrictlySorted(names[1..]) && names == [names[0]] + names[1..]
    ensures forall b :: b in names[1..] ==> names[0] != b && Text.Less(names[0], b)
  {
    var k, rest := names[0], names[1..];
    forall b | b in rest ensures k != b && Text.Less(k, b) {
      var j :| 0 <= j < |rest| && rest[j] == b;
      assert names[j + 1] == b;
      Text.LessIrreflexive(k);
    }
  }

  lemma {:induction false} FieldExplained(env: Env, o: Json, n: Json, name: string, k: string) returns (paths: seq<Path>)
    requires ValidEnv(env) && o.Obj? && n.Obj? && k in n.fields && FieldReport(env, o, n, k).Changes?
    ensures Explains(env.render, o, n, name, iset{Field(k)}, paths, FieldReport(env, o, n, k).list)
    decreases o, 1, 0
  {
    var next := n.fields[k];
    if !Ignored(k) && k in o.fields && next.Obj? && o.fields[k].Obj? {
      var inner := ObjectExplained(env, o.fields[k], next, k);
      FieldBelow(env.render, o, n, name, k, inner, ObjectReport(env, o.fields[k], next).list);
      paths := Below(Field(k), inner);
    } else if !Ignored(k) && k in o.fields && next.Arr? && o.fields[k].Arr? {
      var inner := ArrayExplained(env, o.fields[k], next, k);
      FieldBelow(env.render, o, n, name, k, inner, ElementsReport(env, o.fields[k], next, k, 0).list);
      paths := Below(Field(k), inner);
    } else {
      paths := LeafField(env, o, n, name, k);
    }
  }

  lemma FieldBelow(render: Printer, o: Json, n: Json, name: string, k: string, inner: seq<Path>, list: seq<Change>)
    requires o.Obj? && n.Obj? && k in o.fields && k in n.fields && !Ignored(k)
    requires (o.fields[k].Obj? && n.fields[k].Obj?) || (o.fields[k].Arr? && n.fields[k].Arr?)
    requires Explains(render, o.fields[k], n.fields[k], k, All(), inner, list)
    ensures Explains(render, o, n, name, iset{Field(k)}, Below(Field(k), inner), list)
  {
    var o', n' := o.fields[k], n.fields[k];
    forall p: Path | p != [] ensures ChangeAt(render, o, n, name, [Field(k)] + p) == ChangeAt(render, o', n', k, p) {
      assert ([Field(k)] + p)[1..] == p;
    }
    forall p: Path, q: Path | Before(o', n', p, q) ensures Before(o, n, [Field(k)] + p, [Field(k)] + q) {
      assert ([Field(k)] + p)[1..] == p && ([Field(k)] + q)[1..] == q;
    }
    ExplainsBelow(render, o, n, name, Field(k), o', n', k, All(), inner, list);
  }

  /** Values of different kinds have nothing to compare inside. */
  lemma NothingInside(render: Printer, o: Json, n: Json, name: string, p: Path)
    requires !(o.Obj? && n.Obj?) && !(o.Arr? && n.Arr?)
    ensures ChangeAt(render, o, n, name, p).None?
  {
  }

  lemma LeafField(env: Env, o: Json, n: Json, name: string, k: string) returns (paths: seq<Path>)
    requires o.Obj? && n.Obj? && k in n.fields && FieldReport(env, o, n, k).Changes?
    requires !Ignored(k) && k in o.fields ==> !(o.fields[k].Obj? && n.fields[k].Obj?) && !(o.fields[k].Arr? && n.fields[k].Arr?)
    ensures Explains(env.render, o, n, name, iset{Field(k)}, paths, FieldReport(env, o, n, k).list)
  {
    forall p: Path | |p| > 1 && p[0] == Field(k) ensures ChangeAt(env.render, o, n, name, p).None? {
      if !Ignored(k) && k in o.fields { NothingInside(env.render, o.fields[k], n.fields[k], k, p[1..]); }
    }
    var c := FieldChange(o.fields, n.fields, k);
    if c.Some? {
      paths := [[Field(k)]];
      assert FieldReport(env, o, n, k).list == [c.value];
      ExplainsOne(env.render, o, n, name, Field(k), c.value);
    } else {
      paths := [];
      assert FieldReport(env, o, n, k).list == [];
      forall p: Path | p != [] && p[0] in iset{Field(k)} ensures ChangeAt(env.render, o, n, name, p).None? { assert |p| == 1 || |p| > 1; }
      ExplainsNone(env.render, o, n, name, iset{Field(k)});
    }
  }

  lemma {:induction false} ArrayExplained(env: Env, o: Json, n: Json, name: string) returns (paths: seq<Path>)
    requires ValidEnv(env) && o.Arr? && n.Arr? && ElementsReport(env, o, n, name, 0).Changes?
    ensures Explains(env.render, o, n, name, All(), paths, ElementsReport(env, o, n, name, 0).list)
    decreases o, 3, 0
  {
    paths := ElementsExplained(env, o, n, name, 0);
    ExplainsWiden(env.render, o, n, name, IndexScope(0), All(), paths, ElementsReport(env, o, n, name, 0).list);
  }

  lemma {:induction false} ElementsExplained(env: Env, o: Json, n: Json, name: string, i: nat) returns (paths: seq<Path>)
    requires ValidEnv(env) && o.Arr? && n.Arr? && i <= MaxLength(o, n) && ElementsReport(env, o, n, name, i).Changes?
    ensures Explains(env.render, o, n, name, IndexScope(i), paths, ElementsReport(env, o, n, name, i).list)
    decreases o, 2, MaxLength(o, n) - i
  {
    if i == MaxLength(o, n) {
      paths := [];
      ExplainsNone(env.render, o, n, name, IndexScope(i));
    } else {
      var first := ElementExplained(env, o, n, name, i);
      var later := ElementsExplained(env, o, n, name, i + 1);
      paths := first + later;
      ExplainsJoin(env.render, o, n, name, iset{Index(i)}, first, ElementReport(env, o, n, name, i).list,
                   IndexScope(i + 1), later, ElementsReport(env, o, n, name, i + 1).list);
      assert iset{Index(i)} + IndexScope(i + 1) == IndexScope(i);
    }
  }

  lemma {:induction false} ElementExplained(env: Env, o: Json, n: Json, name: string, i: nat) returns (paths: seq<Path>)
    requires ValidEnv(env) && o.Arr? && n.Arr? && i < MaxLength(o, n) && ElementReport(env, o, n, name, i).Changes?
    ensures Explains(env.render, o, n, name, iset{Index(i)}, paths, ElementReport(env, o, n, name, i).list)
    decreases o, 1, 0
  {
    if i < MinLength(o, n) && o.items[i].Obj? && n.items[i].Obj? {
      var inner := ObjectExplained(env, o.items[i], n.items[i], name);
      IndexBelow(env.render, o, n, name, i, inner, ObjectReport(env, o.items[i], n.items[i]).list);
      paths := Below(Index(i), inner);
    } else if i < MinLength(o, n) && o.items[i].Arr? && n.items[i].Arr? {
      var inner := ArrayExplained(env, o.items[i], n.items[i], name);
      IndexBelow(env.render, o, n, name, i, inner, ElementsReport(env, o.items[i], n.items[i], name, 0).list);
      paths := Below(Index(i), inner);
    } else {
      paths := LeafElement(env, o, n, name, i);
    }
  }

  lemma IndexBelow(render: Printer, o: Json, n: Json, name: string, i: nat, inner: seq<Path>, list: seq<Change>)
    requires o.Arr? && n.Arr? && i < |o.items| && i < |n.items|
    requires (o.items[i].Obj? && n.items[i].Obj?) || (o.items[i].Arr? && n.items[i].Arr?)
    requires Explains(render, o.items[i], n.items[i], name, All(), inner, list)
    ensures Explains(render, o, n, name, iset{Index(i)}, Below(Index(i), inner), list)
  {
    var o', n' := o.items[i], n.items[i];
    forall p: Path | p != [] ensures ChangeAt(render, o, n, name, [Index(i)] + p) == ChangeAt(render, o', n', name, p) {
      assert ([Index(i)] + p)[1..] == p;
    }
    forall p: Path, q: Path | Before(o', n', p, q) ensures Before(o, n, [Index(i)] + p, [Index(i)] + q) {
      assert ([Index(i)] + p)[1..] == p && ([Index(i)] + q)[1..] == q;
    }
    ExplainsBelow(render, o, n, name, Index(i), o', n', name, All(), inner, list);
  }

  lemma LeafElement(env: Env, o: Json, n: Json, name: string, i: nat) returns (paths: seq<Path>)
    requires o.Arr? && n.Arr? && i < MaxLength(o, n)
    requires i < MinLength(o, n) ==> !(o.items[i].Obj? && n.items[i].Obj?) && !(o.items[i].Arr? && n.items[i].Arr?)
    ensures ElementReport(env, o, n, name, i).Changes?
    ensures Explains(env.render, o, n, name, iset{Index(i)}, paths, ElementReport(env, o, n, name, i).list)
  {
    forall p: Path | |p| > 1 && p[0] == Index(i) ensures ChangeAt(env.render, o, n, name, p).None? {
      if i < MinLength(o, n) { NothingInside(env.render, o.items[i], n.items[i], name, p[1..]); }
    }
    var c := ElementChange(env.render, o.items, n.items, name, i);
    if c.Some? {
      paths := [[Index(i)]];
      assert ElementReport(env, o, n, name, i).list == [c.value];
      ExplainsOne(env.render, o, n, name, Index(i), c.value);
    } else {
      paths := [];
      assert ElementReport(env, o, n, name, i).list == [];
      forall p: Path | p != [] && p[0] in iset{Index(i)} ensures ChangeAt(env.render, o, n, name, p).None? { assert |p| == 1 || |p| > 1; }
      ExplainsNone(env.render, o, n, name, iset{Index(i)});
    }
  }

  /** The list of the recording mode, exactly: one change for each place where the documents differ, with the new and the
      old value there, no place twice, and in order. */
  lemma ReportExactly(env: Env, o: Json, n: Json) returns (paths: seq<Path>)
    requires ValidEnv(env) && o.Obj? && n.Obj? && ComparableObject(o, n)
    ensures ObjectReport(env, o, n).Changes? && |paths| == |ObjectReport(env, o, n).list|
    ensures forall i :: 0 <= i < |paths| ==> ChangeAt(env.render, o, n, "", paths[i]) == Some(ObjectReport(env, o, n).list[i])
    ensures forall p: Path :: ChangeAt(env.render, o, n, "", p).Some? ==> p in paths
    ensures forall i, j :: 0 <= i < j < |paths| ==> paths[i] != paths[j] && Before(o, n, paths[i], paths[j])
  {
    ReportDecidesSame(env, o, n);
    paths := ObjectExplained(env, o, n, "");
    forall i, j | 0 <= i < j < |paths| ensures paths[i] != paths[j] {
      assert Before(o, n, paths[i], paths[j]);
      BeforeIrreflexive(o, n, paths[i]);
    }
    forall i | 0 <= i < |paths| ensures ChangeAt(env.render, o, n, "", paths[i]) == Some(ObjectReport(env, o, n).list[i]) {
      assert At(env.render, o, n, "", paths[i], ObjectReport(env, o, n).list[i]);
    }
  }
}
