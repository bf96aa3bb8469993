/** The DDL interpreter itself: the mutable tables dictionary under a stream of parsed events, and
    the final pass that resolves keys and cardinalities. */
module DdlSchema {
  import opened Common
  import opened Ddl
  import opened DdlRename

  datatype Event =
    | Create(name: string, definitions: seq<Definition>)
    | Alter(name: string, actions: seq<Action>)
    | DropTable(name: string, cascade: bool)
    | UniqueIndex(index: string, name: string, cols: seq<string>, partial: bool)
    | DropIndex(index: string)

  // ---- what an event means ----

  function AddAll(u: Table, definitions: seq<Definition>, sqlite: bool): (r: Table) {
    if definitions == [] then u
    else AddDefinition(AddAll(u, definitions[..|definitions| - 1], sqlite), definitions[|definitions| - 1], sqlite)
  }

  const NO_COLUMNS: Columns := []

  function Empty(name: string): (r: Table) { Table(name, NO_COLUMNS, [], map[], map[]) }

  /** The actions of one ALTER TABLE in order, the table followed through its own renames. */
  function ActAll(cat: Catalog, t: string, actions: seq<Action>, sqlite: bool): (r: Option<Catalog>)
    requires t in cat
    ensures r.Some? ==> NameThrough(t, actions) in r.value
  {
    if actions == [] then Some(cat)
    else
      var n := |actions| - 1;
      var before := ActAll(cat, t, actions[..n], sqlite);
      if before.None? then None
      else
        var after := Act(before.value, NameThrough(t, actions[..n]), actions[n], sqlite);
        assert after.Some? ==> NameThrough(t, actions) in after.value;
        after
  }

  function NameThrough(t: string, actions: seq<Action>): (r: string) {
    if actions == [] then t
    else Renamed(NameThrough(t, actions[..|actions| - 1]), actions[|actions| - 1])
  }

  predicate AllPresent(cols: seq<string>, d: Columns) {
    forall c :: c in cols ==> Has(d, c)
  }

  function WithoutIndex(u: Table, index: string): (r: Table) { u.(unique := u.unique - {index}) }

  function Apply(cat: Catalog, e: Event, sqlite: bool): (r: Option<Catalog>) {
    match e
    case Create(name, definitions) =>
      Some(if name in cat then cat else cat[name := AddAll(Empty(name), definitions, sqlite)])
    case Alter(name, actions) => if name in cat then ActAll(cat, name, actions, sqlite) else Some(cat)
    case DropTable(name, cascade) => if cascade then None else Some(cat - {name})
    case UniqueIndex(index, name, cols, partial) =>
      Some(if name in cat && !partial && AllPresent(cols, cat[name].columns)
           then cat[name := cat[name].(unique := cat[name].unique[index := cols])]
           else cat)
    case DropIndex(index) => Some(map k | k in cat :: WithoutIndex(cat[k], index))
  }

  function ApplyAll(cat: Catalog, events: seq<Event>, sqlite: bool): (r: Option<Catalog>) {
    if events == [] then Some(cat)
    else
      var before := ApplyAll(cat, events[..|events| - 1], sqlite);
      if before.None? then None else Apply(before.value, events[|events| - 1], sqlite)
  }

  // ---- the shape every event keeps ----

  ghost predicate Shaped(u: Table, name: string) {
    && u.name == name
    && DistinctKeys(u.columns)
    && forall n :: n in u.fks ==> u.fks[n].child == name
  }

  lemma ShapeIs(cat: Catalog)
    ensures Shape(cat) <==> forall k :: k in cat ==> Shaped(cat[k], k)
  {
    if Shape(cat) {
      forall k | k in cat ensures Shaped(cat[k], k) { assert ShapeOf(cat, k); }
    }
    if forall k :: k in cat ==> Shaped(cat[k], k) {
      forall k | k in cat ensures ShapeOf(cat, k) { assert Shaped(cat[k], k); }
    }
  }

  lemma AddKeepsShape(u: Table, d: Definition, sqlite: bool)
    requires Shaped(u, u.name)
    ensures Shaped(AddDefinition(u, d, sqlite), u.name)
  {
    if d.ColumnDef? {
      PutKeeps(u.columns, d.name, Column(d.typ, d.notNull || (d.key.PrimaryKey? && (!sqlite || d.typ == "integer"))));
    }
  }

  lemma {:induction false} AddAllKeepsShape(u: Table, definitions: seq<Definition>, sqlite: bool)
    requires Shaped(u, u.name)
    ensures Shaped(AddAll(u, definitions, sqlite), u.name)
    decreases |definitions|
  {
    if definitions != [] {
      var n := |definitions| - 1;
      AddAllKeepsShape(u, definitions[..n], sqlite);
      AddKeepsShape(AddAll(u, definitions[..n], sqlite), definitions[n], sqlite);
    }
  }

  lemma {:induction false} RekeyDistinct(d: Columns, was: string, now: string)
    ensures DistinctKeys(Rekey(d, was, now))
    decreases |d|
  {
    if d != [] {
      var n := |d| - 1;
      RekeyDistinct(d[..n], was, now);
      PutKeeps(Rekey(d[..n], was, now), Sub(was, now, d[n].key), d[n].col);
    }
  }

  lemma AlterKeepsShape(u: Table, a: Action, sqlite: bool)
    requires Shaped(u, u.name) && AlterTable(u, a, sqlite).Some?
    ensures Shaped(AlterTable(u, a, sqlite).value, u.name)
  {
    match a
    case Add(_, d, _) => AddKeepsShape(u, d, sqlite);
    case DropColumn(c) => DelKeeps(u.columns, c);
    case SetNotNull(c, on) => PutKeeps(u.columns, c, Get(u.columns, c).(nn := on));
    case SetType(c, typ) => PutKeeps(u.columns, c, Get(u.columns, c).(typ := typ));
    case _ =>
  }

  lemma ActKeepsShape(cat: Catalog, t: string, a: Action, sqlite: bool)
    requires Shape(cat) && t in cat && Act(cat, t, a, sqlite).Some?
    ensures Shape(Act(cat, t, a, sqlite).value)
  {
    ShapeIs(cat);
    var after := Act(cat, t, a, sqlite).value;
    ShapeIs(after);
    match a
    case ToColumn(was, now) =>
      forall k | k in cat ensures Shaped(Rekeyed(cat[k], t, was, now), k) { RekeyDistinct(cat[k].columns, was, now); }
    case ToTable(now) =>
      forall m | m in after ensures Shaped(after[m], m) {
        RelabelledAt(cat, t, now, if m == now then t else m);
      }
    case Unsupported =>
    case _ =>
      AlterKeepsShape(cat[t], a, sqlite);
  }

  lemma {:induction false} ActAllKeepsShape(cat: Catalog, t: string, actions: seq<Action>, sqlite: bool)
    requires Shape(cat) && t in cat && ActAll(cat, t, actions, sqlite).Some?
    ensures Shape(ActAll(cat, t, actions, sqlite).value)
    decreases |actions|
  {
    if actions != [] {
      var n := |actions| - 1;
      ActAllKeepsShape(cat, t, actions[..n], sqlite);
      ActKeepsShape(ActAll(cat, t, actions[..n], sqlite).value, NameThrough(t, actions[..n]), actions[n], sqlite);
    }
  }

  lemma EventKeepsShape(cat: Catalog, e: Event, sqlite: bool)
    requires Shape(cat) && Apply(cat, e, sqlite).Some?
    ensures Shape(Apply(cat, e, sqlite).value)
  {
    ShapeIs(cat);
    ShapeIs(Apply(cat, e, sqlite).value);
    match e
    case Create(name, definitions) => AddAllKeepsShape(Empty(name), definitions, sqlite);
    case Alter(name, actions) => if name in cat { ActAllKeepsShape(cat, name, actions, sqlite); }
    case _ =>
  }

  /** Whatever is parsed, every table stays filed under its own name, its columns stay a dictionary
      and its foreign keys stay its own. */
  lemma {:induction false} EventsKeepShape(cat: Catalog, events: seq<Event>, sqlite: bool)
    requires Shape(cat) && ApplyAll(cat, events, sqlite).Some?
    ensures Shape(ApplyAll(cat, events, sqlite).value)
    decreases |events|
  {
    if events != [] {
      var n := |events| - 1;
      EventsKeepShape(cat, events[..n], sqlite);
      EventKeepsShape(ApplyAll(cat, events[..n], sqlite).value, events[n], sqlite);
    }
  }

  // ---- dropping what others refer to ----

  ghost predicate RefersTo(fk: ForeignKey, t: string, c: string) { fk.parent == t && c in fk.target }

  lemma DelAllIn(d: Columns, c: string, cols: seq<string>)
    requires DistinctKeys(d) && AllIn(cols, d)
    ensures AllIn(cols, Del(d, c)) <==> c !in cols
  {
    DelKeeps(d, c);
    if c in cols { var i :| 0 <= i < |cols| && cols[i] == c; }
  }

  lemma DroppedOwnOk(cat: Catalog, t: string, c: string, sqlite: bool)
    requires WellFormed(cat) && t in cat
    ensures var v := AlterTable(cat[t], DropColumn(c), sqlite).value;
            && v.name == t && DistinctKeys(v.columns) && AllIn(v.pk, v.columns)
            && (forall n :: n in v.unique ==> AllIn(v.unique[n], v.columns))
            && (forall n :: n in v.fks ==> v.fks[n].child == t && AllIn(v.fks[n].cols, v.columns))
  {
    var u := cat[t];
    var v := AlterTable(u, DropColumn(c), sqlite).value;
    assert TableOk(cat, t);
    DelKeeps(u.columns, c);
    forall i | 0 <= i < |v.pk| ensures Has(v.columns, v.pk[i]) { assert v.pk[i] in u.pk; }
    forall n | n in v.unique ensures AllIn(v.unique[n], v.columns) { DelAllIn(u.columns, c, u.unique[n]); }
    forall n | n in v.fks ensures v.fks[n].child == t && AllIn(v.fks[n].cols, v.columns) {
      assert FkOk(cat, t, u.fks[n]);
      DelAllIn(u.columns, c, u.fks[n].cols);
    }
  }

  lemma DroppedFkOk(cat: Catalog, t: string, c: string, sqlite: bool, k: string, n: string)
    requires WellFormed(cat) && t in cat && k in cat && n in cat[k].fks && !(k == t && c in cat[k].fks[n].cols)
    ensures FkOk(cat[t := AlterTable(cat[t], DropColumn(c), sqlite).value], k, cat[k].fks[n])
       <==> !RefersTo(cat[k].fks[n], t, c)
  {
    var fk := cat[k].fks[n];
    assert TableOk(cat, k) && TableOk(cat, t) && FkOk(cat, k, fk);
    DroppedOwnOk(cat, t, c, sqlite);
    if k == t { DelAllIn(cat[t].columns, c, fk.cols); }
    if fk.parent == t { DelAllIn(cat[t].columns, c, fk.target); }
  }

  /** Every foreign key that survives the loss of the column keeps its target. */
  ghost predicate TargetsKept(cat: Catalog, t: string, c: string, k: string)
    requires k in cat
  {
    forall n :: n in cat[k].fks && RefersTo(cat[k].fks[n], t, c) ==> k == t && c in cat[k].fks[n].cols
  }

  lemma DroppedTableOk(cat: Catalog, t: string, c: string, sqlite: bool, k: string)
    requires WellFormed(cat) && t in cat && k in cat
    ensures TableOk(cat[t := AlterTable(cat[t], DropColumn(c), sqlite).value], k) <==> TargetsKept(cat, t, c, k)
  {
    var after := cat[t := AlterTable(cat[t], DropColumn(c), sqlite).value];
    assert TableOk(cat, k);
    DroppedOwnOk(cat, t, c, sqlite);
    forall n | n in cat[k].fks && !(k == t && c in cat[k].fks[n].cols)
      ensures n in after[k].fks && after[k].fks[n] == cat[k].fks[n]
      ensures FkOk(after, k, cat[k].fks[n]) <==> !RefersTo(cat[k].fks[n], t, c)
    {
      DroppedFkOk(cat, t, c, sqlite, k, n);
    }
  }

  /** DROP COLUMN keeps the schema well formed exactly when no surviving foreign key points at the
      column: keys, unique sets and foreign keys of the table itself go with it, those of other
      tables do not. */
  lemma DropColumnExactly(cat: Catalog, t: string, c: string, sqlite: bool)
    requires WellFormed(cat) && t in cat
    ensures Act(cat, t, DropColumn(c), sqlite).Some?
    ensures WellFormed(Act(cat, t, DropColumn(c), sqlite).value)
       <==> forall k, n :: k in cat && n in cat[k].fks && RefersTo(cat[k].fks[n], t, c) ==>
                             k == t && c in cat[k].fks[n].cols
  {
    var after := Act(cat, t, DropColumn(c), sqlite).value;
    assert after.Keys == cat.Keys;
    forall k | k in cat ensures TableOk(after, k) <==> TargetsKept(cat, t, c, k) {
      DroppedTableOk(cat, t, c, sqlite, k);
    }
    if WellFormed(after) {
      forall k, n | k in cat && n in cat[k].fks && RefersTo(cat[k].fks[n], t, c)
        ensures k == t && c in cat[k].fks[n].cols
      {
        assert TableOk(after, k) && TargetsKept(cat, t, c, k);
      }
    }
  }

  lemma WithoutTableOk(cat: Catalog, t: string, k: string)
    requires WellFormed(cat) && k in cat && k != t
    ensures TableOk(cat - {t}, k) <==> forall n :: n in cat[k].fks ==> cat[k].fks[n].parent != t
  {
    assert TableOk(cat, k);
    forall n | n in cat[k].fks ensures FkOk(cat - {t}, k, cat[k].fks[n]) <==> cat[k].fks[n].parent != t {
      assert FkOk(cat, k, cat[k].fks[n]);
    }
  }

  /** DROP TABLE keeps the schema well formed exactly when no other table refers to it. */
  lemma DropTableExactly(cat: Catalog, t: string, sqlite: bool)
    requires WellFormed(cat)
    ensures Apply(cat, DropTable(t, false), sqlite).Some?
    ensures WellFormed(Apply(cat, DropTable(t, false), sqlite).value)
       <==> forall k, n :: k in cat && k != t && n in cat[k].fks ==> cat[k].fks[n].parent != t
  {
    forall k | k in cat - {t}
      ensures TableOk(cat - {t}, k) <==> forall n :: n in cat[k].fks ==> cat[k].fks[n].parent != t
    {
      WithoutTableOk(cat, t, k);
    }
  }

  /** A child table whose one column refers to the one column of a parent. */
  function ChildAndParent(a: Entry, b: Entry, fk: ForeignKey): (r: Catalog) {
    map["child" := Table("child", [a], [], map[], map["f" := fk]), "parent" := Table("parent", [b], [], map[], map[])]
  }

  lemma OneColumn(e: Entry)
    ensures DistinctKeys([e]) && Has([e], e.key) && AllIn([e.key], [e])
  {
    assert [e][0].key == e.key;
  }

  /** Dropping the column referred to, or the whole parent, leaves the child's key dangling. */
  lemma DroppedTarget(a: Entry, b: Entry, fk: ForeignKey, sqlite: bool)
    requires fk == ForeignKey("child", [a.key], "parent", [b.key])
    ensures "parent" in ChildAndParent(a, b, fk) && WellFormed(ChildAndParent(a, b, fk))
    ensures Act(ChildAndParent(a, b, fk), "parent", DropColumn(b.key), sqlite).Some?
    ensures !WellFormed(Act(ChildAndParent(a, b, fk), "parent", DropColumn(b.key), sqlite).value)
    ensures Apply(ChildAndParent(a, b, fk), DropTable("parent", false), sqlite).Some?
    ensures !WellFormed(Apply(ChildAndParent(a, b, fk), DropTable("parent", false), sqlite).value)
  {
    var cat := ChildAndParent(a, b, fk);
    assert "child" != "parent";
    OneColumn(a);
    OneColumn(b);
    assert FkOk(cat, "child", fk);
    assert TableOk(cat, "child") && TableOk(cat, "parent");
    assert cat["child"].fks["f"] == fk && RefersTo(fk, "parent", b.key);
    DropColumnExactly(cat, "parent", b.key, sqlite);
    DropTableExactly(cat, "parent", sqlite);
  }

  // ---- the final pass ----

  datatype Cardinality = Cardinality(optional: bool, one: bool)

  ghost predicate Resolves(cat: Catalog, k: string, fk: ForeignKey)
    requires k in cat
  {
    fk.parent in cat && AllIn(fk.cols, cat[k].columns) && AllIn(fk.target, cat[fk.parent].columns)
  }

  ghost predicate SoundTable(cat: Catalog, k: string)
    requires k in cat
  {
    && AllIn(cat[k].pk, cat[k].columns)
    && (forall n :: n in cat[k].fks ==> Resolves(cat, k, cat[k].fks[n]))
  }

  ghost predicate Sound(cat: Catalog) { forall k :: k in cat ==> SoundTable(cat, k) }

  function Marked(col: Column, inKey: bool, sqlite: bool): (r: Column) {
    col.(nn := col.nn || (inKey && (!sqlite || col.typ == "integer")))
  }

  ghost predicate SameKeys(d: Columns, e: Columns) { forall c :: Has(d, c) <==> Has(e, c) }

  /** The columns of a primary key become NOT NULL; a key over an unknown column is a KeyError. */
  method MarkKeys(columns: Columns, pk: seq<string>, sqlite: bool) returns (ok: bool, d: Columns)
    requires DistinctKeys(columns)
    ensures ok <==> AllIn(pk, columns)
    ensures DistinctKeys(d) && SameKeys(d, columns)
    ensures ok ==> forall c :: Has(columns, c) ==> Has(d, c) && Get(d, c) == Marked(Get(columns, c), c in pk, sqlite)
  {
    d := columns;
    for i := 0 to |pk|
      invariant DistinctKeys(d) && SameKeys(d, columns)
      invariant AllIn(pk[..i], columns)
      invariant forall c :: Has(columns, c) ==> Has(d, c) && Get(d, c) == Marked(Get(columns, c), c in pk[..i], sqlite)
    {
      var c := pk[i];
      if !Has(d, c) {
        assert !AllIn(pk, columns);
        return false, d;
      }
      assert pk[..i + 1] == pk[..i] + [c];
      if !sqlite || Get(d, c).typ == "integer" {
        PutKeeps(d, c, Get(d, c).(nn := true));
        d := Put(d, c, Get(d, c).(nn := true));
      }
    }
    assert pk[..|pk|] == pk;
    ok := true;
  }

  predicate SomeNullable(d: Columns, cols: seq<string>)
    requires AllIn(cols, d)
  {
    exists c :: c in cols && !Get(d, c).nn
  }

  function Line(u: Table, cols: seq<string>): (r: Cardinality)
    requires AllIn(cols, u.columns)
  {
    Cardinality(SomeNullable(u.columns, cols), One(u, cols))
  }

  /** Both ends of every foreign key of table k, or an AssertionError. */
  method ResolveKeys(cat: Catalog, k: string) returns (ok: bool, lines: map<string, Cardinality>)
    requires k in cat
    ensures ok <==> forall n :: n in cat[k].fks ==> Resolves(cat, k, cat[k].fks[n])
    ensures ok ==> lines.Keys == cat[k].fks.Keys
    ensures ok ==> forall n :: n in cat[k].fks ==> lines[n] == Line(cat[k], cat[k].fks[n].cols)
  {
    var u := cat[k];
    var todo := u.fks.Keys;
    lines := map[];
    while todo != {}
      invariant todo <= u.fks.Keys && lines.Keys == u.fks.Keys - todo
      invariant forall n :: n in lines ==> Resolves(cat, k, u.fks[n]) && lines[n] == Line(u, u.fks[n].cols)
      decreases |todo|
    {
      var n :| n in todo;
      var fk := u.fks[n];
      if fk.parent !in cat || !AllIn(fk.cols, u.columns) || !AllIn(fk.target, cat[fk.parent].columns) {
        assert !Resolves(cat, k, u.fks[n]);
        return false, lines;
      }
      lines := lines[n := Line(u, fk.cols)];
      todo := todo - {n};
    }
    ok := true;
  }

  /** The table after the pass marked its primary key. */
  ghost predicate MarkedTable(u: Table, v: Table, sqlite: bool) {
    && v == u.(columns := v.columns)
    && DistinctKeys(v.columns) && SameKeys(v.columns, u.columns)
    && forall c :: Has(u.columns, c) && Has(v.columns, c) ==>
         Get(v.columns, c) == Marked(Get(u.columns, c), c in u.pk, sqlite)
  }

  lemma MarkedLine(u: Table, v: Table, sqlite: bool, cols: seq<string>)
    requires MarkedTable(u, v, sqlite) && AllIn(cols, u.columns)
    ensures AllIn(cols, v.columns)
    ensures Line(v, cols) == Cardinality(Optional(u, sqlite, cols), One(u, cols))
  {
    forall i | 0 <= i < |cols| ensures Has(v.columns, cols[i]) && Get(v.columns, cols[i]).nn == NotNull(u, sqlite, cols[i]) {
      assert Has(u.columns, cols[i]);
    }
    if Optional(u, sqlite, cols) {
      var i :| 0 <= i < |cols| && !NotNull(u, sqlite, cols[i]);
      assert cols[i] in cols && !Get(v.columns, cols[i]).nn;
    }
    if SomeNullable(v.columns, cols) {
      var c :| c in cols && !Get(v.columns, c).nn;
      var i :| 0 <= i < |cols| && cols[i] == c;
      assert !NotNull(u, sqlite, cols[i]);
    }
  }

  /** Marking changes no name, so it decides nothing about which references resolve. */
  lemma ResolvesMarked(cat: Catalog, now: Catalog, k: string, fk: ForeignKey)
    requires cat.Keys == now.Keys && k in cat
    requires forall m :: m in cat ==> SameKeys(now[m].columns, cat[m].columns)
    ensures Resolves(now, k, fk) <==> Resolves(cat, k, fk)
  {
  }

  lemma ShapeAt(cat: Catalog, k: string)
    requires Shape(cat) && k in cat
    ensures DistinctKeys(cat[k].columns) && cat[k].name == k
  {
    assert ShapeOf(cat, k);
  }

  /** Rekeyed, its foreign keys not yet. */
  ghost function RekeyedOwn(u: Table, t: string, was: string, now: string): (r: Table) {
    Rekeyed(u, t, was, now).(fks := u.fks)
  }

  lemma RekeyedTwoSteps(u: Table, t: string, was: string, now: string)
    ensures RekeyedOwn(u, t, was, now).(fks := RekeyedFks(u.fks, t, was, now)) == Rekeyed(u, t, was, now)
    ensures RekeyedOwn(u, t, was, now).fks == u.fks
    ensures RekeyedOwn(u, t, was, now) ==
            if u.name != t then u
            else u.(columns := Rekey(u.columns, was, now), pk := Subst(was, now, u.pk),
                    unique := SubstAll(was, now, u.unique))
  {
  }

  ghost predicate Passed(cat: Catalog, k: string, lines: map<string, Cardinality>, sqlite: bool)
    requires k in cat
  {
    && SoundTable(cat, k)
    && lines.Keys == cat[k].fks.Keys
    && forall n :: n in cat[k].fks ==>
         && Resolves(cat, k, cat[k].fks[n])
         && lines[n] == Cardinality(Optional(cat[k], sqlite, cat[k].fks[n].cols), One(cat[k], cat[k].fks[n].cols))
  }

  /** What resolving table k after its marking says of the schema before the pass. */
  lemma PassOne(cat: Catalog, now: Catalog, k: string, sqlite: bool)
    requires cat.Keys == now.Keys && k in cat && MarkedTable(cat[k], now[k], sqlite)
    requires forall m :: m in cat ==> SameKeys(now[m].columns, cat[m].columns)
    ensures forall n :: n in cat[k].fks ==> (Resolves(now, k, cat[k].fks[n]) <==> Resolves(cat, k, cat[k].fks[n]))
    ensures forall n :: n in cat[k].fks && Resolves(cat, k, cat[k].fks[n]) ==>
              && AllIn(cat[k].fks[n].cols, now[k].columns)
              && Line(now[k], cat[k].fks[n].cols) ==
                 Cardinality(Optional(cat[k], sqlite, cat[k].fks[n].cols), One(cat[k], cat[k].fks[n].cols))
  {
    forall n | n in cat[k].fks ensures Resolves(now, k, cat[k].fks[n]) <==> Resolves(cat, k, cat[k].fks[n]) {
      ResolvesMarked(cat, now, k, cat[k].fks[n]);
    }
    forall n | n in cat[k].fks && Resolves(cat, k, cat[k].fks[n])
      ensures AllIn(cat[k].fks[n].cols, now[k].columns)
      ensures Line(now[k], cat[k].fks[n].cols) ==
              Cardinality(Optional(cat[k], sqlite, cat[k].fks[n].cols), One(cat[k], cat[k].fks[n].cols))
    {
      MarkedLine(cat[k], now[k], sqlite, cat[k].fks[n].cols);
    }
  }

  /** The final pass over the schema cat with the named tables still to do. */
  ghost predicate Partway(cat: Catalog, now: Catalog, todo: set<string>,
                          lines: map<string, map<string, Cardinality>>, sqlite: bool)
  {
    && now.Keys == cat.Keys && todo <= cat.Keys && lines.Keys == cat.Keys - todo
    && (forall k :: k in cat ==> SameKeys(now[k].columns, cat[k].columns))
    && (forall k :: k in todo ==> now[k] == cat[k])
    && (forall k :: k in lines ==> MarkedTable(cat[k], now[k], sqlite))
    && (forall k :: k in lines ==> Passed(cat, k, lines[k], sqlite))
  }

  lemma PartwayStep(cat: Catalog, before: Catalog, now: Catalog, todo: set<string>,
                    lines: map<string, map<string, Cardinality>>, sqlite: bool,
                    k: string, l: map<string, Cardinality>)
    requires Partway(cat, before, todo, lines, sqlite) && k in todo
    requires now.Keys == cat.Keys && forall m :: m in cat && m != k ==> now[m] == before[m]
    requires MarkedTable(cat[k], now[k], sqlite) && Passed(cat, k, l, sqlite)
    ensures Partway(cat, now, todo - {k}, lines[k := l], sqlite)
  {
    var more := lines[k := l];
    assert more.Keys == cat.Keys - (todo - {k});
    forall m | m in cat ensures SameKeys(now[m].columns, cat[m].columns) {
      if m != k { assert now[m] == before[m]; }
    }
    forall m | m in more ensures MarkedTable(cat[m], now[m], sqlite) && Passed(cat, m, more[m], sqlite) {
      if m != k { assert m in lines && now[m] == before[m]; }
    }
  }

  lemma PassDone(cat: Catalog, now: Catalog, lines: map<string, map<string, Cardinality>>, sqlite: bool)
    requires Partway(cat, now, {}, lines, sqlite)
    ensures Sound(cat) && now.Keys == cat.Keys && lines.Keys == cat.Keys
    ensures forall k :: k in cat ==> MarkedTable(cat[k], now[k], sqlite) && Passed(cat, k, lines[k], sqlite)
  {
    forall k | k in cat
      ensures SoundTable(cat, k) && MarkedTable(cat[k], now[k], sqlite) && Passed(cat, k, lines[k], sqlite)
    {
      assert k in lines;
    }
  }

  lemma PassStart(cat: Catalog, sqlite: bool)
    ensures Partway(cat, cat, cat.Keys, map[], sqlite)
  {
  }

  lemma {:induction false} Stuck(cat: Catalog, t: string, actions: seq<Action>, n: nat, sqlite: bool)
    requires t in cat && n <= |actions| && ActAll(cat, t, actions[..n], sqlite).None?
    ensures ActAll(cat, t, actions, sqlite).None?
    decreases |actions|
  {
    if n < |actions| {
      assert actions[..|actions| - 1][..n] == actions[..n];
      Stuck(cat, t, actions[..|actions| - 1], n, sqlite);
    } else {
      assert actions[..n] == actions;
    }
  }

  lemma {:induction false} StuckEvents(events: seq<Event>, n: nat, sqlite: bool)
    requires n <= |events| && ApplyAll(map[], events[..n], sqlite).None?
    ensures ApplyAll(map[], events, sqlite).None?
    decreases |events|
  {
    if n < |events| {
      assert events[..|events| - 1][..n] == events[..n];
      StuckEvents(events[..|events| - 1], n, sqlite);
    } else {
      assert events[..n] == events;
    }
  }

  class Schema {
    var tables: Catalog

    constructor ()
      ensures tables == map[]
    {
      tables := map[];
    }

    /** ValueError (not ok) leaves the tables as they are. */
    method ToColumn(t: string, was: string, now: string) returns (ok: bool)
      requires Shape(tables) && t in tables
      modifies this
      ensures ok <==> RenameColumn(old(tables), t, was, now).Some?
      ensures tables == if ok then RenameColumn(old(tables), t, was, now).value else old(tables)
    {
      ghost var cat := tables;
      var u := tables[t];
      if !Has(u.columns, was) {
        ok := Has(u.columns, now);
        return;
      }
      tables := tables[t := u.(columns := Rekey(u.columns, was, now), pk := Subst(was, now, u.pk),
                               unique := SubstAll(was, now, u.unique))];
      forall k | k in cat ensures tables[k].(fks := RekeyedFks(tables[k].fks, t, was, now)) == Rekeyed(cat[k], t, was, now) {
        ShapeAt(cat, k);
        RekeyedTwoSteps(cat[k], t, was, now);
      }
      RekeyForeignKeys(t, was, now);
      assert tables == RekeyedAll(cat, t, was, now);
      ok := true;
    }

    /** The loop of a column rename over the foreign keys of all tables. */
    method RekeyForeignKeys(t: string, was: string, now: string)
      modifies this
      ensures tables.Keys == old(tables).Keys
      ensures forall k :: k in tables ==>
                tables[k] == old(tables)[k].(fks := RekeyedFks(old(tables)[k].fks, t, was, now))
    {
      var todo := tables.Keys;
      ghost var before := tables;
      while todo != {}
        invariant tables.Keys == before.Keys && todo <= before.Keys
        invariant forall k :: k in todo ==> tables[k] == before[k]
        invariant forall k :: k in before && k !in todo ==>
          tables[k] == before[k].(fks := RekeyedFks(before[k].fks, t, was, now))
        decreases |todo|
      {
        var k :| k in todo;
        tables := tables[k := tables[k].(fks := RekeyedFks(tables[k].fks, t, was, now))];
        todo := todo - {k};
      }
    }

    /** ValueError (not ok) leaves the tables as they are. */
    method ToTable(t: string, now: string) returns (ok: bool)
      requires Shape(tables) && t in tables
      modifies this
      ensures ok <==> RenameTable(old(tables), t, now).Some?
      ensures tables == if ok then RenameTable(old(tables), t, now).value else old(tables)
    {
      if now in tables { return false; }
      ghost var cat := tables;
      var u := tables[t];
      tables := (tables - {t})[now := u.(name := now)];
      ghost var after := RenameTable(cat, t, now).value;
      forall k | k in tables ensures tables[k].(fks := RelabelledFks(tables[k].fks, t, now)) == after[k] {
        var m := if k == now then t else k;
        ShapeAt(cat, m);
        RelabelledAt(cat, t, now, m);
      }
      RelabelForeignKeys(t, now);
      assert tables == after;
      ok := true;
    }

    /** The loop of a table rename over the foreign keys of all tables. */
    method RelabelForeignKeys(was: string, now: string)
      modifies this
      ensures tables.Keys == old(tables).Keys
      ensures forall k :: k in tables ==>
                tables[k] == old(tables)[k].(fks := RelabelledFks(old(tables)[k].fks, was, now))
    {
      var todo := tables.Keys;
      ghost var before := tables;
      while todo != {}
        invariant tables.Keys == before.Keys && todo <= before.Keys
        invariant forall k :: k in todo ==> tables[k] == before[k]
        invariant forall k :: k in before && k !in todo ==>
          tables[k] == before[k].(fks := RelabelledFks(before[k].fks, was, now))
        decreases |todo|
      {
        var k :| k in todo;
        tables := tables[k := tables[k].(fks := RelabelledFks(tables[k].fks, was, now))];
        todo := todo - {k};
      }
    }

    /** One ALTER TABLE; after an exception (not ok) nothing is said of the half-altered tables. */
    method AlterAll(t: string, actions: seq<Action>, sqlite: bool) returns (ok: bool)
      requires Shape(tables) && t in tables
      modifies this
      ensures ok <==> ActAll(old(tables), t, actions, sqlite).Some?
      ensures ok ==> tables == ActAll(old(tables), t, actions, sqlite).value && Shape(tables)
    {
      ghost var cat := tables;
      var current := t;
      for i := 0 to |actions|
        invariant current in tables && Shape(tables)
        invariant current == NameThrough(t, actions[..i]) && ActAll(cat, t, actions[..i], sqlite) == Some(tables)
      {
        var a := actions[i];
        assert actions[..i + 1][..i] == actions[..i];
        ghost var here := tables;
        ok := ActOne(current, a, sqlite);
        assert ActAll(cat, t, actions[..i + 1], sqlite) == Act(here, current, a, sqlite);
        if !ok {
          Stuck(cat, t, actions, i + 1, sqlite);
          return;
        }
        ActKeepsShape(here, current, a, sqlite);
        current := Renamed(current, a);
        assert current == NameThrough(t, actions[..i + 1]);
      }
      assert actions[..|actions|] == actions;
      ok := true;
    }

    method ActOne(t: string, a: Action, sqlite: bool) returns (ok: bool)
      requires Shape(tables) && t in tables
      modifies this
      ensures ok <==> Act(old(tables), t, a, sqlite).Some?
      ensures ok ==> tables == Act(old(tables), t, a, sqlite).value
    {
      match a
      case ToColumn(was, now) => ok := ToColumn(t, was, now);
      case ToTable(now) => ok := ToTable(t, now);
      case Unsupported => ok := false;
      case _ =>
        var u := AlterTable(tables[t], a, sqlite);
        ok := u.Some?;
        if ok { tables := tables[t := u.value]; }
    }

    /** All events in order, from an empty schema; whatever they are, the tables keep their shape. */
    method Replay(events: seq<Event>, sqlite: bool) returns (ok: bool)
      requires tables == map[]
      modifies this
      ensures ok <==> ApplyAll(map[], events, sqlite).Some?
      ensures ok ==> tables == ApplyAll(map[], events, sqlite).value && Shape(tables)
    {
      for i := 0 to |events|
        invariant Shape(tables) && ApplyAll(map[], events[..i], sqlite) == Some(tables)
      {
        assert events[..i + 1][..i] == events[..i];
        ghost var here := tables;
        ok := ApplyOne(events[i], sqlite);
        assert ApplyAll(map[], events[..i + 1], sqlite) == Apply(here, events[i], sqlite);
        if !ok {
          StuckEvents(events, i + 1, sqlite);
          return;
        }
        EventKeepsShape(here, events[i], sqlite);
      }
      assert events[..|events|] == events;
      ok := true;
    }

    method CreateTable(name: string, definitions: seq<Definition>, sqlite: bool)
      modifies this
      ensures tables == old(tables)[name := AddAll(Empty(name), definitions, sqlite)]
    {
      ghost var before := tables;
      tables := tables[name := Empty(name)];
      for i := 0 to |definitions|
        invariant tables == before[name := AddAll(Empty(name), definitions[..i], sqlite)]
      {
        assert definitions[..i + 1][..i] == definitions[..i];
        tables := tables[name := AddDefinition(tables[name], definitions[i], sqlite)];
      }
      assert definitions[..|definitions|] == definitions;
    }

    method ApplyOne(e: Event, sqlite: bool) returns (ok: bool)
      requires Shape(tables)
      modifies this
      ensures ok <==> Apply(old(tables), e, sqlite).Some?
      ensures ok ==> tables == Apply(old(tables), e, sqlite).value
    {
      ok := true;
      match e
      case Create(name, definitions) =>
        if name !in tables { CreateTable(name, definitions, sqlite); }
      case Alter(name, actions) =>
        if name in tables { ok := AlterAll(name, actions, sqlite); }
      case DropTable(name, cascade) =>
        if cascade { return false; }
        tables := tables - {name};
      case UniqueIndex(index, name, cols, partial) =>
        if name in tables && !partial && AllPresent(cols, tables[name].columns) {
          tables := tables[name := tables[name].(unique := tables[name].unique[index := cols])];
        }
      case DropIndex(index) =>
        tables := map k | k in tables :: WithoutIndex(tables[k], index);
    }

    /** Succeeds exactly on a sound schema, and then every foreign key of every table has the
        optionality and multiplicity its columns give it. */
    method FinalPass(sqlite: bool) returns (ok: bool, lines: map<string, map<string, Cardinality>>)
      requires Shape(tables)
      modifies this
      ensures ok <==> Sound(old(tables))
      ensures ok ==> tables.Keys == old(tables).Keys && lines.Keys == tables.Keys
      ensures ok ==> forall k :: k in tables ==> MarkedTable(old(tables)[k], tables[k], sqlite)
      ensures ok ==> forall k :: k in tables ==> Passed(old(tables), k, lines[k], sqlite)
    {
      ghost var cat := tables;
      ok, lines := PassAll(sqlite);
      if ok { PassDone(cat, tables, lines, sqlite); }
    }

    /** The loop over the tables, up to the first that does not resolve. */
    method PassAll(sqlite: bool) returns (ok: bool, lines: map<string, map<string, Cardinality>>)
      requires Shape(tables)
      modifies this
      ensures ok ==> Partway(old(tables), tables, {}, lines, sqlite)
      ensures !ok ==> exists k :: k in old(tables) && !SoundTable(old(tables), k)
    {
      ghost var cat := tables;
      var todo := tables.Keys;
      lines := map[];
      PassStart(cat, sqlite);
      while todo != {}
        invariant todo <= cat.Keys && Partway(cat, tables, todo, lines, sqlite)
        decreases |todo|
      {
        var k :| k in todo;
        ShapeAt(cat, k);
        var good, l := PassTable(cat, todo, lines, k, sqlite);
        if !good { return false, lines; }
        lines := lines[k := l];
        todo := todo - {k};
      }
      ok := true;
    }

    /** The pass over one table of the schema cat, whose other tables may be marked already. */
    method PassTable(ghost cat: Catalog, ghost todo: set<string>, ghost lines: map<string, map<string, Cardinality>>,
                     k: string, sqlite: bool)
      returns (ok: bool, l: map<string, Cardinality>)
      requires Partway(cat, tables, todo, lines, sqlite) && k in todo && DistinctKeys(cat[k].columns)
      modifies this
      ensures ok <==> SoundTable(cat, k)
      ensures ok ==> Partway(cat, tables, todo - {k}, lines[k := l], sqlite)
    {
      var u := tables[k];
      var marked, d := MarkKeys(u.columns, u.pk, sqlite);
      l := map[];
      if !marked { return false, l; }
      ghost var before := tables;
      tables := tables[k := u.(columns := d)];
      PassOne(cat, tables, k, sqlite);
      ok, l := ResolveKeys(tables, k);
      if ok { PartwayStep(cat, before, tables, todo, lines, sqlite, k, l); }
    }
  }
}
