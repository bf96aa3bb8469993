/** Comparing two schema snapshots (scripts/database_schema_catalog.py): the flattened keys, the
    difference they give, and what the HTML report reads back from a key. */
module SchemaDiff {
  import opened Common
  import JsonPointer

  /** What a flattened key names. */
  datatype Key =
    | Table(service: string, store: string, schema: string, name: string)
    | PrimaryKey(service: string, store: string, schema: string, name: string)
    | Part(service: string, store: string, schema: string, name: string, section: string, part: string)
    | Metadata(service: string, store: string, kind: string, schema: string, item: string)
    | View(service: string, store: string, schema: string, view: string)
    | Migrations(service: string, store: string)

  function Slash(a: string, b: string): (r: string) { a + "/" + b }

  function Dot(a: string, b: string): (r: string) { a + "." + b }

  function Print(k: Key): (r: string) {
    match k
    case Table(service, store, schema, name) => Slash(service, Slash(store, Dot(schema, name)))
    case PrimaryKey(service, store, schema, name) => Slash(service, Slash(store, Slash(Dot(schema, name), "pk")))
    case Part(service, store, schema, name, section, part) =>
      Slash(service, Slash(store, Slash(Dot(schema, name), Slash(section, part))))
    case Metadata(service, store, kind, schema, item) =>
      Slash(service, Slash(store, Slash("metadata", Slash(kind, Dot(schema, item)))))
    case View(service, store, schema, view) => Slash(service, Slash(store, Slash("view", Dot(schema, view))))
    case Migrations(service, store) => Slash(service, Slash(store, "migrations"))
  }

  const SECTIONS := {"columns", "fks", "indexes", "checks", "triggers"}

  /** Services, stores, tables and metadata kinds without slashes, schemas without slashes and dots;
      columns, constraints, views and metadata objects may be called anything. */
  predicate Separable(k: Key) {
    && '/' !in k.service && '/' !in k.store
    && match k
       case Table(_, _, schema, name) => '/' !in schema && '.' !in schema && '/' !in name
       case PrimaryKey(_, _, schema, name) => '/' !in schema && '.' !in schema && '/' !in name
       case Part(_, _, schema, name, section, _) =>
         '/' !in schema && '.' !in schema && '/' !in name && section in SECTIONS
       case Metadata(_, _, kind, schema, _) => '/' !in kind && '.' !in schema
       case View(_, _, schema, _) => '.' !in schema
       case Migrations(_, _) => true
  }

  // ---- reading a key back ----

  datatype Halves = Halves(head: string, tail: Option<string>)

  /** Before and after the first c. */
  function Cut(s: string, c: char): (r: Halves) {
    if s == "" then Halves("", None)
    else if s[0] == c then Halves("", Some(s[1..]))
    else var r := Cut(s[1..], c); Halves([s[0]] + r.head, r.tail)
  }

  lemma {:induction false} CutAt(a: string, c: char, b: string)
    requires c !in a
    ensures Cut(a + [c] + b, c) == Halves(a, Some(b))
    decreases |a|
  {
    var s := a + [c] + b;
    if a == "" {
      assert s[1..] == b;
    } else {
      assert s[1..] == a[1..] + [c] + b;
      CutAt(a[1..], c, b);
    }
  }

  lemma {:induction false} CutNone(a: string, c: char)
    requires c !in a
    ensures Cut(a, c) == Halves(a, None)
    decreases |a|
  {
    if a != "" { CutNone(a[1..], c); }
  }

  function Or(o: Option<string>): (r: string) { if o.Some? then o.value else "" }

  function Parse(s: string): (r: Key) {
    var first := Cut(s, '/');
    var second := Cut(Or(first.tail), '/');
    var third := Cut(Or(second.tail), '/');
    var (service, store) := (first.head, second.head);
    var named := Cut(third.head, '.');
    if named.tail.Some? then
      var (schema, name) := (named.head, named.tail.value);
      if third.tail.None? then Table(service, store, schema, name)
      else
        var fourth := Cut(third.tail.value, '/');
        if fourth.tail.None? then PrimaryKey(service, store, schema, name)
        else Part(service, store, schema, name, fourth.head, fourth.tail.value)
    else if third.tail.None? then Migrations(service, store)
    else if third.head == "view" then
      var v := Cut(third.tail.value, '.');
      View(service, store, v.head, Or(v.tail))
    else
      var fourth := Cut(third.tail.value, '/');
      var m := Cut(Or(fourth.tail), '.');
      Metadata(service, store, fourth.head, m.head, Or(m.tail))
  }

  lemma CutSlash(a: string, b: string)
    requires '/' !in a
    ensures Cut(Slash(a, b), '/') == Halves(a, Some(b))
  {
    CutAt(a, '/', b);
  }

  lemma CutDot(a: string, b: string)
    requires '.' !in a
    ensures Cut(Dot(a, b), '.') == Halves(a, Some(b))
  {
    CutAt(a, '.', b);
  }

  /** Reads the first two parts and the third of a printed key. */
  lemma CutThree(service: string, store: string, third: string, rest: string)
    requires '/' !in service && '/' !in store && '/' !in third
    ensures var s := Slash(service, Slash(store, Slash(third, rest)));
            var r := Cut(Or(Cut(s, '/').tail), '/');
            Cut(s, '/').head == service && r.head == store && Cut(Or(r.tail), '/') == Halves(third, Some(rest))
    ensures var s := Slash(service, Slash(store, third));
            var r := Cut(Or(Cut(s, '/').tail), '/');
            Cut(s, '/').head == service && r.head == store && Cut(Or(r.tail), '/') == Halves(third, None)
  {
    CutSlash(service, Slash(store, Slash(third, rest)));
    CutSlash(store, Slash(third, rest));
    CutSlash(third, rest);
    CutSlash(service, Slash(store, third));
    CutSlash(store, third);
    CutNone(third, '/');
  }

  lemma WordsAreWhole()
    ensures '/' !in "metadata" && '.' !in "metadata" && '/' !in "view" && '.' !in "view" && "metadata" != "view"
    ensures '/' !in "migrations" && '.' !in "migrations" && '/' !in "pk"
    ensures forall section :: section in SECTIONS ==> '/' !in section
  {
  }

  /** Every separable key is read back from its print, so no two of them print alike. */
  lemma KeyRoundTrip(k: Key)
    requires Separable(k)
    ensures Parse(Print(k)) == k
  {
    WordsAreWhole();
    match k
    case Table(service, store, schema, name) =>
      CutThree(service, store, Dot(schema, name), "");
      CutDot(schema, name);
    case PrimaryKey(service, store, schema, name) =>
      CutThree(service, store, Dot(schema, name), "pk");
      CutDot(schema, name);
      CutNone("pk", '/');
    case Part(service, store, schema, name, section, part) =>
      CutThree(service, store, Dot(schema, name), Slash(section, part));
      CutDot(schema, name);
      CutSlash(section, part);
    case Metadata(service, store, kind, schema, item) =>
      CutThree(service, store, "metadata", Slash(kind, Dot(schema, item)));
      CutNone("metadata", '.');
      CutSlash(kind, Dot(schema, item));
      CutDot(schema, item);
    case View(service, store, schema, view) =>
      CutThree(service, store, "view", Dot(schema, view));
      CutNone("view", '.');
      CutDot(schema, view);
    case Migrations(service, store) =>
      CutThree(service, store, "migrations", "");
      CutNone("migrations", '.');
  }

  lemma PrintInjective(k: Key, k': Key)
    requires Separable(k) && Separable(k') && Print(k) == Print(k')
    ensures k == k'
  {
    KeyRoundTrip(k);
    KeyRoundTrip(k');
  }

  // ---- flattening ----

  /** Values are compared as a whole; they stand here as their canonical text. */
  datatype Named = Named(name: string, value: string)
  datatype TableRow = TableRow(schema: string, name: string, head: string, pk: string, columns: seq<Named>,
                               fks: seq<Named>, indexes: seq<Named>, checks: seq<Named>, triggers: seq<Named>)
  datatype MetadataRow = MetadataRow(kind: string, schema: string, name: string, value: string)
  datatype ViewRow = ViewRow(schema: string, name: string, value: string)
  datatype Store = Store(service: string, store: string, tables: seq<TableRow>, metadata: seq<MetadataRow>,
                         views: seq<ViewRow>, migrations: string)
  datatype Snapshot = Snapshot(format: string, stores: seq<Store>)

  datatype Object = Object(key: Key, value: string)

  function PartsOf(s: Store, t: TableRow, section: string, ns: seq<Named>): (r: seq<Object>)
    ensures |r| == |ns|
  {
    seq(|ns|, i requires 0 <= i < |ns| => Object(Part(s.service, s.store, t.schema, t.name, section, ns[i].name), ns[i].value))
  }

  function TableObjects(s: Store, t: TableRow): (r: seq<Object>) {
    [Object(Table(s.service, s.store, t.schema, t.name), t.head),
     Object(PrimaryKey(s.service, s.store, t.schema, t.name), t.pk)]
    + PartsOf(s, t, "columns", t.columns) + PartsOf(s, t, "fks", t.fks) + PartsOf(s, t, "indexes", t.indexes)
    + PartsOf(s, t, "checks", t.checks) + PartsOf(s, t, "triggers", t.triggers)
  }

  function TablesObjects(s: Store, ts: seq<TableRow>): (r: seq<Object>) {
    if ts == [] then [] else TablesObjects(s, ts[..|ts| - 1]) + TableObjects(s, ts[|ts| - 1])
  }

  function StoreObjects(s: Store): (r: seq<Object>) {
    TablesObjects(s, s.tables)
    + seq(|s.metadata|, i requires 0 <= i < |s.metadata| =>
            var row := s.metadata[i]; Object(Metadata(s.service, s.store, row.kind, row.schema, row.name), row.value))
    + seq(|s.views|, i requires 0 <= i < |s.views| =>
            var v := s.views[i]; Object(View(s.service, s.store, v.schema, v.name), v.value))
    + [Object(Migrations(s.service, s.store), s.migrations)]
  }

  function Objects(stores: seq<Store>): (r: seq<Object>) {
    if stores == [] then [] else Objects(stores[..|stores| - 1]) + StoreObjects(stores[|stores| - 1])
  }

  /** The dictionary after storing all objects in order under their printed keys. */
  function Stored(before: map<string, string>, os: seq<Object>): (r: map<string, string>) {
    if os == [] then before
    else Stored(before, os[..|os| - 1])[Print(os[|os| - 1].key) := os[|os| - 1].value]
  }

  lemma LastOfBoth<T>(a: seq<T>, b: seq<T>)
    requires b != []
    ensures (a + b)[..|a + b| - 1] == a + b[..|b| - 1] && (a + b)[|a + b| - 1] == b[|b| - 1]
  {
  }

  lemma {:induction false} StoredMore(before: map<string, string>, a: seq<Object>, b: seq<Object>)
    ensures Stored(before, a + b) == Stored(Stored(before, a), b)
    decreases |b|
  {
    if b == [] {
      assert a + b == a;
    } else {
      StoredMore(before, a, b[..|b| - 1]);
      LastOfBoth(a, b);
    }
  }

  method StoreAll(before: map<string, string>, os: seq<Object>) returns (result: map<string, string>)
    ensures result == Stored(before, os)
  {
    result := before;
    for i := 0 to |os|
      invariant result == Stored(before, os[..i])
    {
      assert os[..i + 1][..i] == os[..i];
      result := result[Print(os[i].key) := os[i].value];
    }
    assert os[..|os|] == os;
  }

  /** One of the loops over the parts of a table. */
  method StoreParts(before: map<string, string>, s: Store, t: TableRow, section: string, ns: seq<Named>)
    returns (result: map<string, string>)
    ensures result == Stored(before, PartsOf(s, t, section, ns))
  {
    result := before;
    ghost var os := PartsOf(s, t, section, ns);
    for i := 0 to |ns|
      invariant result == Stored(before, os[..i])
    {
      assert os[..i + 1][..i] == os[..i];
      result := result[Print(Part(s.service, s.store, t.schema, t.name, section, ns[i].name)) := ns[i].value];
    }
    assert os[..|ns|] == os;
  }

  method StoreTable(before: map<string, string>, s: Store, t: TableRow) returns (result: map<string, string>)
    ensures result == Stored(before, TableObjects(s, t))
  {
    var first := [Object(Table(s.service, s.store, t.schema, t.name), t.head),
                  Object(PrimaryKey(s.service, s.store, t.schema, t.name), t.pk)];
    var a, b, c := PartsOf(s, t, "columns", t.columns), PartsOf(s, t, "fks", t.fks), PartsOf(s, t, "indexes", t.indexes);
    var d := PartsOf(s, t, "checks", t.checks);
    StoredMore(before, first + a + b + c + d, PartsOf(s, t, "triggers", t.triggers));
    StoredMore(before, first + a + b + c, d);
    StoredMore(before, first + a + b, c);
    StoredMore(before, first + a, b);
    StoredMore(before, first, a);
    result := StoreAll(before, first);
    result := StoreParts(result, s, t, "columns", t.columns);
    result := StoreParts(result, s, t, "fks", t.fks);
    result := StoreParts(result, s, t, "indexes", t.indexes);
    result := StoreParts(result, s, t, "checks", t.checks);
    result := StoreParts(result, s, t, "triggers", t.triggers);
  }

  lemma StoredTables(before: map<string, string>, s: Store, ts: seq<TableRow>, i: nat)
    requires i < |ts|
    ensures Stored(before, TablesObjects(s, ts[..i + 1])) ==
            Stored(Stored(before, TablesObjects(s, ts[..i])), TableObjects(s, ts[i]))
  {
    assert ts[..i + 1][..i] == ts[..i];
    StoredMore(before, TablesObjects(s, ts[..i]), TableObjects(s, ts[i]));
  }

  method StoreTables(before: map<string, string>, s: Store) returns (result: map<string, string>)
    ensures result == Stored(before, TablesObjects(s, s.tables))
  {
    result := before;
    for i := 0 to |s.tables|
      invariant result == Stored(before, TablesObjects(s, s.tables[..i]))
    {
      StoredTables(before, s, s.tables, i);
      result := StoreTable(result, s, s.tables[i]);
    }
    assert s.tables[..|s.tables|] == s.tables;
  }

  method StoreStore(before: map<string, string>, s: Store) returns (result: map<string, string>)
    ensures result == Stored(before, StoreObjects(s))
  {
    var tables := TablesObjects(s, s.tables);
    var metadata := seq(|s.metadata|, i requires 0 <= i < |s.metadata| =>
      var row := s.metadata[i]; Object(Metadata(s.service, s.store, row.kind, row.schema, row.name), row.value));
    var views := seq(|s.views|, i requires 0 <= i < |s.views| =>
      var v := s.views[i]; Object(View(s.service, s.store, v.schema, v.name), v.value));
    var last := [Object(Migrations(s.service, s.store), s.migrations)];
    assert StoreObjects(s) == tables + metadata + views + last;
    StoredMore(before, tables + metadata + views, last);
    StoredMore(before, tables + metadata, views);
    StoredMore(before, tables, metadata);
    result := StoreTables(before, s);
    result := StoreAll(result, metadata);
    result := StoreAll(result, views);
    result := StoreAll(result, last);
  }

  lemma StoredStores(stores: seq<Store>, i: nat)
    requires i < |stores|
    ensures Stored(map[], Objects(stores[..i + 1])) == Stored(Stored(map[], Objects(stores[..i])), StoreObjects(stores[i]))
  {
    assert stores[..i + 1][..i] == stores[..i];
    StoredMore(map[], Objects(stores[..i]), StoreObjects(stores[i]));
  }

  method Flatten(stores: seq<Store>) returns (result: map<string, string>)
    ensures result == Stored(map[], Objects(stores))
  {
    result := map[];
    for i := 0 to |stores|
      invariant result == Stored(map[], Objects(stores[..i]))
    {
      StoredStores(stores, i);
      result := StoreStore(result, stores[i]);
    }
    assert stores[..|stores|] == stores;
  }

  // ---- the difference ----

  datatype Change = Added | Removed | Changed

  function Lookup(m: map<string, string>, name: string): (r: Option<string>) {
    if name in m then Some(m[name]) else None
  }

  /** A change for every name whose value differs, and for no other name. */
  ghost predicate IsDiff(d: map<string, Change>, before: map<string, string>, after: map<string, string>) {
    && (forall name :: name in d <==> Lookup(before, name) != Lookup(after, name))
    && (forall name :: name in d ==> d[name] == if name !in before then Added else if name !in after then Removed else Changed)
  }

  /** None when the snapshots have different formats. */
  method Compare(expected: Snapshot, actual: Snapshot) returns (r: Option<map<string, Change>>)
    ensures r.None? <==> expected.format != actual.format
    ensures r.Some? ==> IsDiff(r.value, Stored(map[], Objects(expected.stores)), Stored(map[], Objects(actual.stores)))
  {
    if expected.format != actual.format { return None; }
    var before := Flatten(expected.stores);
    var after := Flatten(actual.stores);
    var changes: map<string, Change> := map[];
    var todo := before.Keys + after.Keys;
    while todo != {}
      invariant todo <= before.Keys + after.Keys
      invariant forall name :: name in changes <==> name !in todo && Lookup(before, name) != Lookup(after, name)
      invariant forall name :: name in changes ==>
        changes[name] == if name !in before then Added else if name !in after then Removed else Changed
      decreases |todo|
    {
      var name :| name in todo;
      if Lookup(before, name) != Lookup(after, name) {
        changes := changes[name := if name !in before then Added else if name !in after then Removed else Changed];
      }
      todo := todo - {name};
    }
    r := Some(changes);
  }

  /** The objects by what they are, the last of a kind winning. */
  function ByKey(os: seq<Object>): (r: map<Key, string>) {
    if os == [] then map[] else ByKey(os[..|os| - 1])[os[|os| - 1].key := os[|os| - 1].value]
  }

  ghost predicate AllSeparable(os: seq<Object>) { forall i :: 0 <= i < |os| ==> Separable(os[i].key) }

  function LookupKey(m: map<Key, string>, k: Key): (r: Option<string>) { if k in m then Some(m[k]) else None }

  /** Storing one more object under its printed key and under its key. */
  lemma StoreOne(m: map<string, string>, byKey: map<Key, string>, o: Object, k: Key)
    requires Separable(o.key) && Separable(k) && Lookup(m, Print(k)) == LookupKey(byKey, k)
    ensures Lookup(m[Print(o.key) := o.value], Print(k)) == LookupKey(byKey[o.key := o.value], k)
  {
    if Print(k) == Print(o.key) { PrintInjective(k, o.key); }
  }

  /** Under its printed key the dictionary holds each object's last value: no two keys share a name. */
  lemma {:induction false} StoredAt(os: seq<Object>, k: Key)
    requires AllSeparable(os) && Separable(k)
    ensures Lookup(Stored(map[], os), Print(k)) == LookupKey(ByKey(os), k)
    decreases |os|
  {
    if os != [] {
      var n := |os| - 1;
      assert forall i :: 0 <= i < n ==> os[..n][i] == os[i];
      StoredAt(os[..n], k);
      StoreOne(Stored(map[], os[..n]), ByKey(os[..n]), os[n], k);
    }
  }

  lemma {:induction false} StoredNames(os: seq<Object>, name: string)
    requires name in Stored(map[], os)
    ensures exists i :: 0 <= i < |os| && Print(os[i].key) == name
    decreases |os|
  {
    if os != [] {
      var n := |os| - 1;
      if name != Print(os[n].key) {
        StoredNames(os[..n], name);
        var i :| 0 <= i < n && Print(os[..n][i].key) == name;
        assert os[i] == os[..n][i];
      }
    }
  }

  lemma {:induction false} KeysSeparable(os: seq<Object>, k: Key)
    requires AllSeparable(os) && k in ByKey(os)
    ensures Separable(k)
    decreases |os|
  {
    var n := |os| - 1;
    assert forall i :: 0 <= i < n ==> os[..n][i] == os[i];
    if k != os[n].key { KeysSeparable(os[..n], k); }
  }

  lemma NoChange(a: seq<Object>, b: seq<Object>, name: string)
    requires AllSeparable(a) && AllSeparable(b) && ByKey(a) == ByKey(b)
    ensures Lookup(Stored(map[], a), name) == Lookup(Stored(map[], b), name)
  {
    if name in Stored(map[], a) {
      StoredNames(a, name);
      var i :| 0 <= i < |a| && Print(a[i].key) == name;
      StoredAt(a, a[i].key);
      StoredAt(b, a[i].key);
    }
    if name in Stored(map[], b) {
      StoredNames(b, name);
      var i :| 0 <= i < |b| && Print(b[i].key) == name;
      StoredAt(a, b[i].key);
      StoredAt(b, b[i].key);
    }
  }

  /** The comparison is empty exactly when both snapshots hold the same objects with the same values. */
  lemma EmptyExactly(d: map<string, Change>, a: seq<Object>, b: seq<Object>)
    requires AllSeparable(a) && AllSeparable(b) && IsDiff(d, Stored(map[], a), Stored(map[], b))
    ensures d == map[] <==> ByKey(a) == ByKey(b)
  {
    if d == map[] {
      forall k ensures LookupKey(ByKey(a), k) == LookupKey(ByKey(b), k) {
        if k in ByKey(a) { KeysSeparable(a, k); }
        if k in ByKey(b) { KeysSeparable(b, k); }
        if Separable(k) {
          assert Print(k) !in d;
          StoredAt(a, k);
          StoredAt(b, k);
        }
      }
      SameLookups(ByKey(a), ByKey(b));
    }
    if ByKey(a) == ByKey(b) {
      forall name ensures name !in d { NoChange(a, b, name); }
    }
  }

  lemma SameLookups(m: map<Key, string>, n: map<Key, string>)
    requires forall k :: LookupKey(m, k) == LookupKey(n, k)
    ensures m == n
  {
    forall k ensures (k in m <==> k in n) && (k in m ==> m[k] == n[k]) { assert LookupKey(m, k) == LookupKey(n, k); }
  }

  ghost predicate OncePerKey(os: seq<Object>) { forall i, j :: 0 <= i < j < |os| ==> os[i].key != os[j].key }

  lemma {:induction false} ByKeyOnce(os: seq<Object>)
    requires OncePerKey(os)
    ensures forall k :: k in ByKey(os) ==> Object(k, ByKey(os)[k]) in os
    ensures forall o :: o in os ==> o.key in ByKey(os) && ByKey(os)[o.key] == o.value
    decreases |os|
  {
    if os != [] {
      var n := |os| - 1;
      assert os == os[..n] + [os[n]];
      assert forall i :: 0 <= i < n ==> os[..n][i] == os[i];
      ByKeyOnce(os[..n]);
    }
  }

  /** ... which, when each object is listed once, is agreement up to order. */
  lemma EmptyUpToOrder(d: map<string, Change>, a: seq<Object>, b: seq<Object>)
    requires AllSeparable(a) && AllSeparable(b) && IsDiff(d, Stored(map[], a), Stored(map[], b))
    requires OncePerKey(a) && OncePerKey(b)
    ensures d == map[] <==> forall o :: o in a <==> o in b
  {
    EmptyExactly(d, a, b);
    ByKeyOnce(a);
    ByKeyOnce(b);
    if forall o :: o in a <==> o in b {
      forall k ensures LookupKey(ByKey(a), k) == LookupKey(ByKey(b), k) {
        if k in ByKey(a) { assert Object(k, ByKey(a)[k]) in b; }
        if k in ByKey(b) { assert Object(k, ByKey(b)[k]) in a; }
      }
      SameLookups(ByKey(a), ByKey(b));
    }
  }

  function Swapped(c: Change): (r: Change) {
    match c case Added => Removed case Removed => Added case Changed => Changed
  }

  /** Exchanging the snapshots exchanges added and removed. */
  lemma SwapExchanges(d: map<string, Change>, e: map<string, Change>, before: map<string, string>, after: map<string, string>)
    requires IsDiff(d, before, after) && IsDiff(e, after, before)
    ensures d.Keys == e.Keys && forall name :: name in d ==> e[name] == Swapped(d[name])
  {
    forall name ensures name in d <==> name in e { }
    forall name | name in d ensures e[name] == Swapped(d[name]) {
      assert name in e && Lookup(before, name) != Lookup(after, name);
    }
  }

  // ---- what the HTML report reads from a name ----

  function TableOf(name: string): (r: string) {
    var parts := JsonPointer.Split(name);
    if |parts| >= 5 && parts[2] == "metadata" && parts[3] in {"table", "column"}
    then Cut(Or(Cut(parts[4], '.').tail), '.').head
    else if |parts| >= 3 then Or(Cut(parts[2], '.').tail)
    else ""
  }

  /** The pair behind the link: the frontend's own schema table is shown once per store. */
  function Linked(name: string): (r: (string, string)) {
    var parts := JsonPointer.Split(name);
    var table := TableOf(name);
    (parts[0],
     if table == "schema_metadata" && parts[0] == "Cloud Frontend"
     then (if |parts| > 1 then parts[1] else "") + "." + table
     else table)
  }

  lemma {:induction false} SplitSlash(a: string, b: string)
    requires '/' !in a
    ensures JsonPointer.Split(Slash(a, b)) == [a] + JsonPointer.Split(b)
    decreases |a|
  {
    var s := Slash(a, b);
    if a == "" {
      assert s[1..] == b;
    } else {
      assert s[1..] == Slash(a[1..], b);
      SplitSlash(a[1..], b);
      assert [s[0]] + a[1..] == a;
    }
  }

  lemma {:induction false} SplitNone(a: string)
    requires '/' !in a
    ensures JsonPointer.Split(a) == [a]
    decreases |a|
  {
    if a != "" {
      SplitNone(a[1..]);
      assert [a[0]] + a[1..] == a;
    }
  }

  lemma SplitThree(service: string, store: string, third: string, rest: string)
    requires '/' !in service && '/' !in store && '/' !in third
    ensures JsonPointer.Split(Slash(service, Slash(store, third))) == [service, store, third]
    ensures JsonPointer.Split(Slash(service, Slash(store, Slash(third, rest)))) ==
            [service, store, third] + JsonPointer.Split(rest)
  {
    SplitNone(third);
    SplitTwo(service, store, third);
    SplitTwo(service, store, Slash(third, rest));
    SplitSlash(third, rest);
  }

  lemma SplitTwo(service: string, store: string, rest: string)
    requires '/' !in service && '/' !in store
    ensures JsonPointer.Split(Slash(service, Slash(store, rest))) == [service, store] + JsonPointer.Split(rest)
  {
    SplitSlash(service, Slash(store, rest));
    SplitSlash(store, rest);
  }

  function Shown(service: string, store: string, table: string): (r: string) {
    if table == "schema_metadata" && service == "Cloud Frontend" then store + "." + table else table
  }

  lemma DotIsNoMetadata(schema: string, name: string)
    ensures Dot(schema, name) != "metadata"
  {
    assert Dot(schema, name)[|schema|] == '.';
    WordsAreWhole();
  }

  /** The third part of a name holds schema and table, unless it is the word for metadata. */
  lemma ThirdIsTable(text: string, service: string, store: string, schema: string, name: string, more: seq<string>)
    requires JsonPointer.Split(text) == [service, store, Dot(schema, name)] + more && '.' !in schema
    ensures TableOf(text) == name && Linked(text) == (service, Shown(service, store, name))
  {
    DotIsNoMetadata(schema, name);
    CutDot(schema, name);
  }

  /** From the key of a table, of its primary key or of any part of it, the report links to the very
      service and table. */
  lemma TableLinked(k: Key)
    requires Separable(k) && (k.Table? || k.PrimaryKey? || k.Part?)
    ensures TableOf(Print(k)) == k.name
    ensures Linked(Print(k)) == (k.service, Shown(k.service, k.store, k.name))
  {
    var rest := match k case Part(_, _, _, _, section, part) => Slash(section, part) case _ => "pk";
    SplitThree(k.service, k.store, Dot(k.schema, k.name), rest);
    ThirdIsTable(Print(k), k.service, k.store, k.schema, k.name, if k.Table? then [] else JsonPointer.Split(rest));
  }

  /** Metadata of a table or of one of its columns is linked to the table exactly when the table's
      name has no dot. */
  lemma MetadataLinkedExactly(k: Key, table: string, column: Option<string>)
    requires Separable(k) && k.Metadata? && k.kind in {"table", "column"}
    requires '/' !in k.schema && '/' !in k.item
    requires k.item == (if column.Some? then Dot(table, column.value) else table)
    ensures TableOf(Print(k)) == table <==> '.' !in table
  {
    WordsAreWhole();
    var whole := Dot(k.schema, k.item);
    SplitThree(k.service, k.store, "metadata", Slash(k.kind, whole));
    SplitSlash(k.kind, whole);
    SplitNone(whole);
    CutDot(k.schema, k.item);
    assert TableOf(Print(k)) == Cut(k.item, '.').head;
    if '.' in table {
      CutShort(k.item, '.');
      assert '.' !in Cut(k.item, '.').head;
    } else if column.Some? {
      CutDot(table, column.value);
    } else {
      CutNone(table, '.');
    }
  }

  lemma {:induction false} CutShort(s: string, c: char)
    ensures c !in Cut(s, c).head
    decreases |s|
  {
    if s != "" && s[0] != c { CutShort(s[1..], c); }
  }

  /** Nothing else is linked to a table. */
  lemma OthersUnlinked(k: Key)
    requires Separable(k) && (k.View? || k.Migrations? || (k.Metadata? && k.kind !in {"table", "column"}))
    ensures TableOf(Print(k)) == ""
  {
    WordsAreWhole();
    match k
    case View(service, store, schema, view) =>
      SplitThree(service, store, "view", Dot(schema, view));
      NoDotUnlinked(Print(k), "view");
    case Migrations(service, store) =>
      SplitThree(service, store, "migrations", "");
      NoDotUnlinked(Print(k), "migrations");
    case Metadata(service, store, kind, schema, item) =>
      SplitThree(service, store, "metadata", Slash(kind, Dot(schema, item)));
      SplitSlash(kind, Dot(schema, item));
      NoDotUnlinked(Print(k), "metadata");
  }

  lemma NoDotUnlinked(name: string, third: string)
    requires var parts := JsonPointer.Split(name);
             |parts| >= 3 && parts[2] == third && '.' !in third
             && !(|parts| >= 5 && third == "metadata" && parts[3] in {"table", "column"})
    ensures TableOf(name) == ""
  {
    CutNone(third, '.');
  }
}
