/** The schema state of scripts/generate_database_er_atlas.py: tables, keys and foreign keys under
    parsed CREATE, ALTER, DROP and RENAME actions, and the final cardinality pass. */
module Ddl {
  import opened Common

  datatype Column = Column(typ: string, nn: bool)
  datatype Entry = Entry(key: string, col: Column)
  /** A Python dictionary of columns: insertion order, one entry a key. */
  type Columns = seq<Entry>

  datatype ForeignKey = ForeignKey(child: string, cols: seq<string>, parent: string, target: seq<string>)
  datatype Table = Table(name: string, columns: Columns, pk: seq<string>,
                         unique: map<string, seq<string>>, fks: map<string, ForeignKey>)
  type Catalog = map<string, Table>

  // ---- ordered dictionaries ----

  /** The position of a key, the length of the dictionary when it has no such key. */
  function At(d: Columns, key: string): (i: nat)
    ensures i <= |d| && (i < |d| ==> d[i].key == key)
    ensures forall j :: 0 <= j < i ==> d[j].key != key
  {
    if d == [] then 0
    else if d[0].key == key then 0
    else
      var i := At(d[1..], key);
      assert forall j :: 0 < j < i + 1 ==> d[j] == d[1..][j - 1];
      i + 1
  }

  predicate Has(d: Columns, key: string) { At(d, key) < |d| }

  function Get(d: Columns, key: string): (r: Column)
    requires Has(d, key)
  {
    d[At(d, key)].col
  }

  function Put(d: Columns, key: string, col: Column): (r: Columns) {
    if Has(d, key) then d[At(d, key) := Entry(key, col)] else d + [Entry(key, col)]
  }

  function Del(d: Columns, key: string): (r: Columns) {
    if Has(d, key) then d[..At(d, key)] + d[At(d, key) + 1..] else d
  }

  ghost predicate DistinctKeys(d: Columns) {
    forall i, j :: 0 <= i < j < |d| ==> d[i].key != d[j].key
  }

  lemma AtIs(d: Columns, i: nat)
    requires DistinctKeys(d) && i < |d|
    ensures At(d, d[i].key) == i
  {
    var k := At(d, d[i].key);
    assert k <= i;
  }

  lemma PutKeeps(d: Columns, key: string, col: Column)
    requires DistinctKeys(d)
    ensures DistinctKeys(Put(d, key, col))
    ensures forall k :: Has(Put(d, key, col), k) <==> k == key || Has(d, k)
    ensures Get(Put(d, key, col), key) == col
    ensures forall k :: k != key && Has(d, k) ==> Get(Put(d, key, col), k) == Get(d, k)
  {
    var p := Put(d, key, col);
    AtIs(p, At(d, key));
    forall k ensures Has(p, k) <==> k == key || Has(d, k) {
      if Has(d, k) { assert p[At(d, k)].key == k; }
      if Has(p, k) && k != key { assert d[At(p, k)].key == k; }
    }
    forall k | k != key && Has(d, k) ensures Get(p, k) == Get(d, k) { AtIs(p, At(d, k)); }
  }

  lemma DelKeeps(d: Columns, key: string)
    requires DistinctKeys(d)
    ensures DistinctKeys(Del(d, key))
    ensures forall k :: Has(Del(d, key), k) <==> k != key && Has(d, k)
  {
    var r := Del(d, key);
    var a := At(d, key);
    forall k ensures Has(r, k) <==> k != key && Has(d, k) {
      if k != key && Has(d, k) {
        var i := At(d, k);
        assert i < a ==> r[i] == d[i];
        assert i > a ==> r[i - 1] == d[i];
      }
      if Has(r, k) && Has(d, key) {
        var i := At(r, k);
        assert r[i] == (if i < a then d[i] else d[i + 1]);
      }
    }
  }

  // ---- renaming one name in names, dictionaries and tables ----

  function Sub(was: string, now: string, c: string): (r: string) { if c == was then now else c }

  function Subst(was: string, now: string, cols: seq<string>): (r: seq<string>)
    ensures |r| == |cols| && forall i :: 0 <= i < |cols| ==> r[i] == Sub(was, now, cols[i])
  {
    seq(|cols|, i requires 0 <= i < |cols| => Sub(was, now, cols[i]))
  }

  /** The dictionary built again entry by entry with one key renamed: on a collision the later value
      stays, in the earlier position. */
  function Rekey(d: Columns, was: string, now: string): (r: Columns) {
    if d == [] then []
    else
      var last := d[|d| - 1];
      Put(Rekey(d[..|d| - 1], was, now), Sub(was, now, last.key), last.col)
  }

  function RekeyedFk(fk: ForeignKey, table: string, was: string, now: string): (r: ForeignKey) {
    fk.(cols := if fk.child == table then Subst(was, now, fk.cols) else fk.cols,
        target := if fk.parent == table then Subst(was, now, fk.target) else fk.target)
  }

  function SubstAll(was: string, now: string, unique: map<string, seq<string>>): (r: map<string, seq<string>>) {
    map n | n in unique :: Subst(was, now, unique[n])
  }

  function RekeyedFks(fks: map<string, ForeignKey>, table: string, was: string, now: string)
    : (r: map<string, ForeignKey>)
  {
    map n | n in fks :: RekeyedFk(fks[n], table, was, now)
  }

  /** What renaming a column of the named table does to a table: to its own parts when it is that
      table, and to every foreign key from or to it. */
  function Rekeyed(u: Table, table: string, was: string, now: string): (r: Table) {
    var own := u.name == table;
    Table(u.name,
          if own then Rekey(u.columns, was, now) else u.columns,
          if own then Subst(was, now, u.pk) else u.pk,
          if own then SubstAll(was, now, u.unique) else u.unique,
          RekeyedFks(u.fks, table, was, now))
  }

  function RekeyedAll(cat: Catalog, table: string, was: string, now: string): (r: Catalog) {
    map k | k in cat :: Rekeyed(cat[k], table, was, now)
  }

  function RenameColumn(cat: Catalog, table: string, was: string, now: string): (r: Option<Catalog>)
    requires table in cat
  {
    if Has(cat[table].columns, was) then Some(RekeyedAll(cat, table, was, now))
    else if Has(cat[table].columns, now) then Some(cat)
    else None
  }

  function RelabelledFk(fk: ForeignKey, was: string, now: string): (r: ForeignKey) {
    fk.(child := Sub(was, now, fk.child), parent := Sub(was, now, fk.parent))
  }

  function RelabelledFks(fks: map<string, ForeignKey>, was: string, now: string): (r: map<string, ForeignKey>) {
    map n | n in fks :: RelabelledFk(fks[n], was, now)
  }

  function Relabelled(u: Table, was: string, now: string): (r: Table) {
    u.(name := Sub(was, now, u.name), fks := RelabelledFks(u.fks, was, now))
  }

  function RenameTable(cat: Catalog, was: string, now: string): (r: Option<Catalog>)
    requires was in cat
  {
    if now in cat then None
    else Some(map k | k in cat.Keys - {was} + {now} ::
                Relabelled(cat[if k == now then was else k], was, now))
  }

  // ---- the other ALTER actions ----

  datatype Key = NoKey | PrimaryKey | UniqueKey
  datatype Reference = Reference(target: string, cols: seq<string>)

  /** A parsed definition: a column, a table constraint, or text that adds nothing (CHECK). */
  datatype Definition =
    | ColumnDef(constraint: Option<string>, name: string, typ: string, notNull: bool, key: Key, ref: Option<Reference>)
    | KeyDef(constraint: Option<string>, primary: bool, cols: seq<string>)
    | ForeignDef(constraint: Option<string>, cols: seq<string>, target: Reference)
    | NoDef

  datatype Action =
    | Add(word: string, definition: Definition, ifNotExists: bool)
    | DropConstraint(constraint: string)
    | DropColumn(column: string)
    | ToColumn(was: string, now: string)
    | ToTable(name: string)
    | SetNotNull(column: string, on: bool)
    | SetType(column: string, typ: string)
    | NoEffect
    | Unsupported

  function Underscored(cols: seq<string>): (r: string) {
    if cols == [] then ""
    else if |cols| == 1 then cols[0]
    else cols[0] + "_" + Underscored(cols[1..])
  }

  function Named(constraint: Option<string>, otherwise: string): (r: string) {
    if constraint.Some? then constraint.value else otherwise
  }

  function WithReference(u: Table, constraint: Option<string>, cols: seq<string>, ref: Option<Reference>): (r: Table) {
    if ref.None? then u
    else
      var cname := Named(constraint, u.name + "_" + Underscored(cols) + "_fkey");
      u.(fks := u.fks[cname := ForeignKey(u.name, cols, ref.value.target, ref.value.cols)])
  }

  function AddDefinition(u: Table, d: Definition, sqlite: bool): (r: Table) {
    match d
    case NoDef => u
    case KeyDef(constraint, true, cols) =>
      u.(unique := u.unique[Named(constraint, u.name + "_pkey") := cols], pk := cols)
    case KeyDef(constraint, false, cols) =>
      u.(unique := u.unique[Named(constraint, u.name + "_" + Underscored(cols) + "_key") := cols])
    case ForeignDef(constraint, cols, target) => WithReference(u, constraint, cols, Some(target))
    case ColumnDef(constraint, name, typ, notNull, key, ref) =>
      var col := Column(typ, notNull || (key.PrimaryKey? && (!sqlite || typ == "integer")));
      var v := u.(columns := Put(u.columns, name, col));
      var w := match key
        case PrimaryKey => v.(pk := [name], unique := v.unique[v.name + "_pkey" := [name]])
        case UniqueKey => v.(unique := v.unique[v.name + "_" + name + "_key" := [name]])
        case NoKey => v;
      WithReference(w, constraint, [name], ref)
  }

  function Without(cols: seq<string>, c: string): (r: seq<string>)
    ensures forall x :: x in r <==> x in cols && x != c
  {
    if cols == [] then []
    else
      var r := Without(cols[..|cols| - 1], c);
      assert cols == cols[..|cols| - 1] + [cols[|cols| - 1]];
      if cols[|cols| - 1] == c then r else r + [cols[|cols| - 1]]
  }

  /** An action that changes only the table it is applied to; None is an uncaught exception. */
  function AlterTable(u: Table, a: Action, sqlite: bool): (r: Option<Table>) {
    match a
    case Add(word, d, ifNotExists) =>
      Some(if ifNotExists && Has(u.columns, word) then u else AddDefinition(u, d, sqlite))
    case DropConstraint(c) =>
      Some(u.(pk := if c == u.name + "_pkey" then [] else u.pk, fks := u.fks - {c}, unique := u.unique - {c}))
    case DropColumn(c) =>
      Some(u.(columns := Del(u.columns, c), pk := Without(u.pk, c),
              unique := map n | n in u.unique && c !in u.unique[n] :: u.unique[n],
              fks := map n | n in u.fks && c !in u.fks[n].cols :: u.fks[n]))
    case SetNotNull(c, on) =>
      if Has(u.columns, c) then Some(u.(columns := Put(u.columns, c, Get(u.columns, c).(nn := on)))) else None
    case SetType(c, typ) =>
      if Has(u.columns, c) then Some(u.(columns := Put(u.columns, c, Get(u.columns, c).(typ := typ)))) else None
    case ToColumn(_, _) => None
    case ToTable(_) => None
    case NoEffect => Some(u)
    case Unsupported => None
  }

  /** One action of an ALTER TABLE on the table now called t. */
  function Act(cat: Catalog, t: string, a: Action, sqlite: bool): (r: Option<Catalog>)
    requires t in cat
  {
    match a
    case ToColumn(was, now) => RenameColumn(cat, t, was, now)
    case ToTable(name) => RenameTable(cat, t, name)
    case _ =>
      var u := AlterTable(cat[t], a, sqlite);
      if u.None? then None else Some(cat[t := u.value])
  }

  /** The name of the altered table after an action. */
  function Renamed(t: string, a: Action): (r: string) { if a.ToTable? then a.name else t }

  // ---- well-formed catalogues ----

  predicate AllIn(cols: seq<string>, d: Columns) {
    forall i :: 0 <= i < |cols| ==> Has(d, cols[i])
  }

  ghost predicate FkOk(cat: Catalog, k: string, fk: ForeignKey)
    requires k in cat
  {
    && fk.child == k
    && AllIn(fk.cols, cat[k].columns)
    && fk.parent in cat
    && AllIn(fk.target, cat[fk.parent].columns)
  }

  /** What holds of every table whatever is parsed. */
  ghost predicate ShapeOf(cat: Catalog, k: string)
    requires k in cat
  {
    && cat[k].name == k
    && DistinctKeys(cat[k].columns)
    && forall n :: n in cat[k].fks ==> cat[k].fks[n].child == k
  }

  ghost predicate Shape(cat: Catalog) { forall k :: k in cat ==> ShapeOf(cat, k) }

  ghost predicate TableOk(cat: Catalog, k: string)
    requires k in cat
  {
    && cat[k].name == k
    && DistinctKeys(cat[k].columns)
    && AllIn(cat[k].pk, cat[k].columns)
    && (forall n :: n in cat[k].unique ==> AllIn(cat[k].unique[n], cat[k].columns))
    && (forall n :: n in cat[k].fks ==> FkOk(cat, k, cat[k].fks[n]))
  }

  /** Keys, unique sets and foreign keys name only columns and tables that exist. */
  ghost predicate WellFormed(cat: Catalog) { forall k :: k in cat ==> TableOk(cat, k) }

  lemma NotHas(d: Columns, key: string)
    ensures Has(d, key) <==> exists i :: 0 <= i < |d| && d[i].key == key
  {
  }

  /** Every key renamed in its place. */
  function Mapped(d: Columns, was: string, now: string): (r: Columns)
    ensures |r| == |d| && forall i :: 0 <= i < |d| ==> r[i] == Entry(Sub(was, now, d[i].key), d[i].col)
  {
    seq(|d|, i requires 0 <= i < |d| => Entry(Sub(was, now, d[i].key), d[i].col))
  }

  lemma PutFresh(d: Columns, e: Entry)
    requires DistinctKeys(d + [e])
    ensures DistinctKeys(d) && Put(d, e.key, e.col) == d + [e]
  {
    assert forall i :: 0 <= i < |d| ==> (d + [e])[i] == d[i];
    assert (d + [e])[|d|] == e;
  }

  /** A rename under which no two keys meet keeps every entry in its place. */
  lemma {:induction false} RekeyEntries(d: Columns, was: string, now: string)
    requires DistinctKeys(Mapped(d, was, now))
    ensures Rekey(d, was, now) == Mapped(d, was, now)
    decreases |d|
  {
    if d != [] {
      var n := |d| - 1;
      var before := Mapped(d[..n], was, now);
      var e := Entry(Sub(was, now, d[n].key), d[n].col);
      assert Mapped(d, was, now) == before + [e];
      PutFresh(before, e);
      RekeyEntries(d[..n], was, now);
    }
  }

  lemma MappedFresh(d: Columns, was: string, now: string)
    requires DistinctKeys(d) && !Has(d, now)
    ensures DistinctKeys(Mapped(d, was, now)) && Rekey(d, was, now) == Mapped(d, was, now)
  {
    NotHas(d, now);
    var r := Mapped(d, was, now);
    forall i, j | 0 <= i < j < |r| ensures r[i].key != r[j].key { assert d[i].key != d[j].key; }
    RekeyEntries(d, was, now);
  }

  lemma RekeyFresh(d: Columns, was: string, now: string)
    requires DistinctKeys(d) && !Has(d, now)
    ensures DistinctKeys(Rekey(d, was, now))
    ensures forall c :: c != now && Has(d, c) ==>
              && Has(Rekey(d, was, now), Sub(was, now, c))
              && Get(Rekey(d, was, now), Sub(was, now, c)) == Get(d, c)
  {
    MappedFresh(d, was, now);
    var r := Mapped(d, was, now);
    forall c | c != now && Has(d, c)
      ensures Has(r, Sub(was, now, c)) && Get(r, Sub(was, now, c)) == Get(d, c)
    {
      assert r[At(d, c)].key == Sub(was, now, c);
      AtIs(r, At(d, c));
    }
  }
}
