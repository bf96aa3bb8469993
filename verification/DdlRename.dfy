/** Renames in the schema state: what they keep, and when the reverse rename undoes them. */
module DdlRename {
  import opened Common
  import opened Ddl

  // ---- cardinalities ----

  /** The column ends NOT NULL: declared so, or in the primary key (SQLite: integer keys only). */
  predicate NotNull(u: Table, sqlite: bool, c: string)
    requires Has(u.columns, c)
  {
    Get(u.columns, c).nn || (c in u.pk && (!sqlite || Get(u.columns, c).typ == "integer"))
  }

  ghost predicate Optional(u: Table, sqlite: bool, cols: seq<string>)
    requires AllIn(cols, u.columns)
  {
    exists i :: 0 <= i < |cols| && !NotNull(u, sqlite, cols[i])
  }

  predicate Covered(key: seq<string>, cols: seq<string>) {
    forall i :: 0 <= i < |key| ==> key[i] in cols
  }

  predicate One(u: Table, cols: seq<string>) {
    exists n :: n in u.unique && Covered(u.unique[n], cols)
  }

  // ---- one name replaced and put back ----

  lemma AllInFresh(cols: seq<string>, d: Columns, now: string)
    requires AllIn(cols, d) && !Has(d, now)
    ensures now !in cols
  {
  }

  lemma SubstBack(was: string, now: string, cols: seq<string>)
    requires now !in cols
    ensures Subst(now, was, Subst(was, now, cols)) == cols
    ensures was != now ==> was !in Subst(was, now, cols)
  {
  }

  lemma SubstSame(name: string, cols: seq<string>)
    ensures Subst(name, name, cols) == cols
  {
  }

  lemma SubstMember(was: string, now: string, cols: seq<string>, c: string)
    requires now !in cols && c != now
    ensures Sub(was, now, c) in Subst(was, now, cols) <==> c in cols
  {
    var r := Subst(was, now, cols);
    if c in cols {
      var i :| 0 <= i < |cols| && cols[i] == c;
      assert r[i] == Sub(was, now, c);
    }
    if Sub(was, now, c) in r {
      var i :| 0 <= i < |r| && r[i] == Sub(was, now, c);
      assert cols[i] != now;
    }
  }

  lemma SubstCovered(was: string, now: string, key: seq<string>, cols: seq<string>)
    requires now !in key && now !in cols
    ensures Covered(Subst(was, now, key), Subst(was, now, cols)) <==> Covered(key, cols)
  {
    forall i | 0 <= i < |key| ensures Subst(was, now, key)[i] in Subst(was, now, cols) <==> key[i] in cols {
      SubstMember(was, now, cols, key[i]);
    }
  }

  lemma SubstAllIn(d: Columns, was: string, now: string, cols: seq<string>)
    requires DistinctKeys(d) && !Has(d, now) && AllIn(cols, d)
    ensures AllIn(Subst(was, now, cols), Rekey(d, was, now))
  {
    RekeyFresh(d, was, now);
    AllInFresh(cols, d, now);
    forall i | 0 <= i < |cols| ensures Has(Rekey(d, was, now), Subst(was, now, cols)[i]) {
      assert cols[i] != now && Has(d, cols[i]);
    }
  }

  lemma MappedBack(d: Columns, was: string, now: string)
    requires forall i :: 0 <= i < |d| ==> d[i].key != now
    ensures Mapped(Mapped(d, was, now), now, was) == d
    ensures was != now ==> forall i :: 0 <= i < |d| ==> Mapped(d, was, now)[i].key != was
  {
  }

  lemma RekeyBack(d: Columns, was: string, now: string)
    requires DistinctKeys(d) && !Has(d, now) && Has(d, was)
    ensures Rekey(Rekey(d, was, now), now, was) == d
    ensures Has(Rekey(d, was, now), now) && !Has(Rekey(d, was, now), was)
  {
    var r := Rekey(d, was, now);
    RekeyFresh(d, was, now);
    assert Sub(was, now, was) == now;
    NotHas(d, now);
    MappedFresh(d, was, now);
    MappedBack(d, was, now);
    NotHas(r, was);
    MappedFresh(r, now, was);
  }

  // ---- renaming a column ----

  lemma RekeyedFkOk(cat: Catalog, t: string, was: string, now: string, k: string, n: string)
    requires WellFormed(cat) && t in cat && !Has(cat[t].columns, now)
    requires k in cat && n in cat[k].fks
    requires RenameColumn(cat, t, was, now).Some? && Has(cat[t].columns, was)
    ensures FkOk(RenameColumn(cat, t, was, now).value, k, RekeyedFk(cat[k].fks[n], t, was, now))
  {
    var fk := cat[k].fks[n];
    assert TableOk(cat, k) && TableOk(cat, t) && FkOk(cat, k, fk) && TableOk(cat, fk.parent);
    if fk.child == t { SubstAllIn(cat[t].columns, was, now, fk.cols); }
    if fk.parent == t { SubstAllIn(cat[t].columns, was, now, fk.target); }
  }

  lemma RekeyedTableOk(cat: Catalog, t: string, was: string, now: string, k: string)
    requires WellFormed(cat) && t in cat && Has(cat[t].columns, was) && !Has(cat[t].columns, now) && k in cat
    ensures TableOk(RenameColumn(cat, t, was, now).value, k)
  {
    var u := cat[k];
    var after := RenameColumn(cat, t, was, now).value;
    assert TableOk(cat, k) && TableOk(cat, t);
    RekeyFresh(cat[t].columns, was, now);
    if k == t {
      SubstAllIn(u.columns, was, now, u.pk);
      forall n | n in u.unique ensures AllIn(after[k].unique[n], after[k].columns) {
        SubstAllIn(u.columns, was, now, u.unique[n]);
      }
    }
    forall n | n in u.fks ensures FkOk(after, k, after[k].fks[n]) { RekeyedFkOk(cat, t, was, now, k, n); }
  }

  lemma RekeyedFkBack(cat: Catalog, t: string, was: string, now: string, k: string, fk: ForeignKey)
    requires t in cat && !Has(cat[t].columns, now) && k in cat && FkOk(cat, k, fk)
    ensures RekeyedFk(RekeyedFk(fk, t, was, now), t, now, was) == fk
  {
    if fk.child == t { AllInFresh(fk.cols, cat[t].columns, now); SubstBack(was, now, fk.cols); }
    if fk.parent == t { AllInFresh(fk.target, cat[t].columns, now); SubstBack(was, now, fk.target); }
  }

  lemma SubstAllBack(unique: map<string, seq<string>>, d: Columns, was: string, now: string)
    requires !Has(d, now) && forall n :: n in unique ==> AllIn(unique[n], d)
    ensures SubstAll(now, was, SubstAll(was, now, unique)) == unique
  {
    forall n | n in unique ensures Subst(now, was, Subst(was, now, unique[n])) == unique[n] {
      AllInFresh(unique[n], d, now);
      SubstBack(was, now, unique[n]);
    }
  }

  lemma RekeyedFksBack(cat: Catalog, t: string, was: string, now: string, k: string)
    requires t in cat && !Has(cat[t].columns, now) && k in cat && TableOk(cat, k)
    ensures RekeyedFks(RekeyedFks(cat[k].fks, t, was, now), t, now, was) == cat[k].fks
  {
    var fks := cat[k].fks;
    forall n | n in fks ensures RekeyedFk(RekeyedFk(fks[n], t, was, now), t, now, was) == fks[n] {
      RekeyedFkBack(cat, t, was, now, k, fks[n]);
    }
  }

  lemma RekeyedBack(cat: Catalog, t: string, was: string, now: string, k: string)
    requires t in cat && Has(cat[t].columns, was) && !Has(cat[t].columns, now) && k in cat && TableOk(cat, k)
    ensures Rekeyed(Rekeyed(cat[k], t, was, now), t, now, was) == cat[k]
  {
    var u := cat[k];
    RekeyedFksBack(cat, t, was, now, k);
    if k == t {
      RekeyBack(u.columns, was, now);
      AllInFresh(u.pk, u.columns, now);
      SubstBack(was, now, u.pk);
      SubstAllBack(u.unique, u.columns, was, now);
    }
  }

  lemma ColumnRenameKeeps(cat: Catalog, t: string, was: string, now: string)
    requires WellFormed(cat) && t in cat && Has(cat[t].columns, was) && !Has(cat[t].columns, now)
    ensures RenameColumn(cat, t, was, now).Some?
    ensures var after := RenameColumn(cat, t, was, now).value; after.Keys == cat.Keys && WellFormed(after)
  {
    var after := RenameColumn(cat, t, was, now).value;
    forall k | k in cat ensures TableOk(after, k) { RekeyedTableOk(cat, t, was, now, k); }
  }

  lemma RekeyedAllBack(cat: Catalog, t: string, was: string, now: string)
    requires WellFormed(cat) && t in cat && Has(cat[t].columns, was) && !Has(cat[t].columns, now)
    ensures RekeyedAll(RekeyedAll(cat, t, was, now), t, now, was) == cat
  {
    forall k | k in cat ensures Rekeyed(Rekeyed(cat[k], t, was, now), t, now, was) == cat[k] {
      assert TableOk(cat, k);
      RekeyedBack(cat, t, was, now, k);
    }
  }

  /** Renaming a column to a fresh name is undone by the reverse rename: keys, unique sets and all
      foreign keys, self references included, are back. */
  lemma ColumnRenameUndone(cat: Catalog, t: string, was: string, now: string)
    requires WellFormed(cat) && t in cat && Has(cat[t].columns, was) && !Has(cat[t].columns, now)
    ensures RenameColumn(cat, t, was, now).Some? && t in RenameColumn(cat, t, was, now).value
    ensures RenameColumn(RenameColumn(cat, t, was, now).value, t, now, was) == Some(cat)
  {
    var after := RenameColumn(cat, t, was, now).value;
    RekeyedAllBack(cat, t, was, now);
    assert TableOk(cat, t);
    RekeyBack(cat[t].columns, was, now);
    assert Has(after[t].columns, now);
  }

  lemma HasLast(d: Columns, c: string)
    requires d != []
    ensures Has(d, c) <==> Has(d[..|d| - 1], c) || d[|d| - 1].key == c
  {
    var n := |d| - 1;
    if Has(d[..n], c) { assert d[At(d[..n], c)].key == c; }
    if Has(d, c) && At(d, c) < n { assert d[..n][At(d, c)].key == c; }
  }

  lemma HasPut(d: Columns, key: string, col: Column, c: string)
    ensures Has(Put(d, key, col), c) <==> c == key || Has(d, c)
  {
    var p := Put(d, key, col);
    if Has(p, c) && c != key { assert d[At(p, c)].key == c; }
    if Has(d, c) { assert p[At(d, c)].key == c; }
    assert p[At(d, key)].key == key;
  }

  function TwoColumns(a: Entry, b: Entry): (r: Catalog) { map["t" := Table("t", [a, b], [], map[], map[])] }

  /** Renaming a column over its neighbour is not undone: with columns a and b, renaming a to b and
      back leaves one column. */
  lemma CollisionIsNotUndone(a: Entry, b: Entry)
    requires a.key == "a" && b.key == "b"
    ensures WellFormed(TwoColumns(a, b)) && RenameColumn(TwoColumns(a, b), "t", "a", "b").Some?
    ensures "t" in RenameColumn(TwoColumns(a, b), "t", "a", "b").value
    ensures RenameColumn(RenameColumn(TwoColumns(a, b), "t", "a", "b").value, "t", "b", "a") != Some(TwoColumns(a, b))
  {
    var d := [a, b];
    assert d[0].key == "a" && d[1].key == "b" && "a" != "b";
    NotHas(d, "a");
    NotHas(d, "b");
    assert TableOk(TwoColumns(a, b), "t");
    ColumnRenameUndoneExactly(TwoColumns(a, b), "t", "a", "b");
  }

  /** When both names are columns, the dictionary comes out of the rename with an entry less. */
  lemma {:induction false} RekeyShrinks(d: Columns, was: string, now: string)
    ensures |Rekey(d, was, now)| <= |d|
    ensures was != now && Has(d, was) && Has(d, now) ==> |Rekey(d, was, now)| < |d|
    ensures Has(d, was) || Has(d, now) ==> Has(Rekey(d, was, now), now)
    decreases |d|
  {
    if d != [] {
      var n := |d| - 1;
      var before := Rekey(d[..n], was, now);
      var key := Sub(was, now, d[n].key);
      RekeyShrinks(d[..n], was, now);
      HasLast(d, was);
      HasLast(d, now);
      HasPut(before, key, d[n].col, now);
      PutSize(before, key, d[n].col);
      if was != now && Has(d, was) && Has(d, now) && key == now { assert Has(before, now); }
    }
  }

  lemma PutSize(d: Columns, key: string, col: Column)
    ensures |Put(d, key, col)| == |d| + (if Has(d, key) then 0 else 1)
  {
  }

  /** Renames that go through are undone exactly when the old column exists and the new name is fresh,
      or the two names are one. The tolerated rename of a column that is gone over one that is there
      changes nothing, and its reverse does. */
  lemma ColumnRenameUndoneExactly(cat: Catalog, t: string, was: string, now: string)
    requires WellFormed(cat) && t in cat && RenameColumn(cat, t, was, now).Some?
    ensures t in RenameColumn(cat, t, was, now).value
    ensures RenameColumn(RenameColumn(cat, t, was, now).value, t, now, was) == Some(cat)
       <==> (Has(cat[t].columns, was) && !Has(cat[t].columns, now)) || now == was
  {
    var after := RenameColumn(cat, t, was, now).value;
    assert TableOk(cat, t);
    if now == was {
      ColumnToItself(cat, t, was);
    } else if !Has(cat[t].columns, was) {
      RekeyShrinks(cat[t].columns, now, was);
    } else if !Has(cat[t].columns, now) {
      ColumnRenameUndone(cat, t, was, now);
    } else {
      RekeyShrinks(cat[t].columns, was, now);
      RekeyShrinks(after[t].columns, now, was);
    }
  }

  lemma RekeySame(d: Columns, name: string)
    requires DistinctKeys(d)
    ensures Rekey(d, name, name) == d
  {
    assert Mapped(d, name, name) == d;
    RekeyEntries(d, name, name);
  }

  lemma TableToItself(u: Table, t: string, name: string)
    requires DistinctKeys(u.columns)
    ensures Rekeyed(u, t, name, name) == u
  {
    RekeySame(u.columns, name);
    SubstSame(name, u.pk);
    forall n | n in u.unique ensures Subst(name, name, u.unique[n]) == u.unique[n] { SubstSame(name, u.unique[n]); }
    assert SubstAll(name, name, u.unique) == u.unique;
    forall n | n in u.fks ensures RekeyedFk(u.fks[n], t, name, name) == u.fks[n] {
      SubstSame(name, u.fks[n].cols);
      SubstSame(name, u.fks[n].target);
    }
    assert RekeyedFks(u.fks, t, name, name) == u.fks;
  }

  lemma ColumnToItself(cat: Catalog, t: string, name: string)
    requires WellFormed(cat) && t in cat && Has(cat[t].columns, name)
    ensures RenameColumn(cat, t, name, name) == Some(cat)
  {
    forall k | k in cat ensures Rekeyed(cat[k], t, name, name) == cat[k] {
      assert TableOk(cat, k);
      TableToItself(cat[k], t, name);
    }
    assert RenameColumn(cat, t, name, name).value == cat;
  }

  // ---- cardinalities under a column rename ----

  lemma NotNullKept(u: Table, sqlite: bool, was: string, now: string, c: string)
    requires DistinctKeys(u.columns) && !Has(u.columns, now) && AllIn(u.pk, u.columns) && Has(u.columns, c)
    ensures Has(Rekeyed(u, u.name, was, now).columns, Sub(was, now, c))
    ensures NotNull(Rekeyed(u, u.name, was, now), sqlite, Sub(was, now, c)) == NotNull(u, sqlite, c)
  {
    RekeyFresh(u.columns, was, now);
    AllInFresh(u.pk, u.columns, now);
    SubstMember(was, now, u.pk, c);
  }

  lemma OptionalKept(u: Table, sqlite: bool, was: string, now: string, cols: seq<string>)
    requires DistinctKeys(u.columns) && !Has(u.columns, now) && AllIn(u.pk, u.columns) && AllIn(cols, u.columns)
    ensures AllIn(Subst(was, now, cols), Rekeyed(u, u.name, was, now).columns)
    ensures Optional(Rekeyed(u, u.name, was, now), sqlite, Subst(was, now, cols)) == Optional(u, sqlite, cols)
  {
    SubstAllIn(u.columns, was, now, cols);
    var v := Rekeyed(u, u.name, was, now);
    forall i | 0 <= i < |cols|
      ensures NotNull(v, sqlite, Subst(was, now, cols)[i]) == NotNull(u, sqlite, cols[i])
    {
      NotNullKept(u, sqlite, was, now, cols[i]);
    }
  }

  lemma OneKept(u: Table, was: string, now: string, cols: seq<string>)
    requires !Has(u.columns, now) && AllIn(cols, u.columns)
    requires forall n :: n in u.unique ==> AllIn(u.unique[n], u.columns)
    ensures One(Rekeyed(u, u.name, was, now), Subst(was, now, cols)) == One(u, cols)
  {
    var v := Rekeyed(u, u.name, was, now);
    AllInFresh(cols, u.columns, now);
    forall n | n in u.unique
      ensures Covered(v.unique[n], Subst(was, now, cols)) == Covered(u.unique[n], cols)
    {
      AllInFresh(u.unique[n], u.columns, now);
      SubstCovered(was, now, u.unique[n], cols);
    }
    assert v.unique.Keys == u.unique.Keys;
  }

  /** The two ends of the line drawn for a foreign key. */
  ghost predicate SameCardinality(u: Table, v: Table, sqlite: bool, n: string)
    requires n in u.fks && AllIn(u.fks[n].cols, u.columns)
  {
    && n in v.fks && AllIn(v.fks[n].cols, v.columns)
    && Optional(v, sqlite, v.fks[n].cols) == Optional(u, sqlite, u.fks[n].cols)
    && One(v, v.fks[n].cols) == One(u, u.fks[n].cols)
  }

  lemma ColumnRenameCardinality(cat: Catalog, t: string, was: string, now: string, sqlite: bool, k: string, n: string)
    requires WellFormed(cat) && t in cat && Has(cat[t].columns, was) && !Has(cat[t].columns, now)
    requires k in cat && n in cat[k].fks
    ensures TableOk(cat, k) && k in RenameColumn(cat, t, was, now).value
    ensures SameCardinality(cat[k], RenameColumn(cat, t, was, now).value[k], sqlite, n)
  {
    var u := cat[k];
    var v := Rekeyed(u, t, was, now);
    assert TableOk(cat, k) && FkOk(cat, k, u.fks[n]);
    if k == t {
      OptionalKept(u, sqlite, was, now, u.fks[n].cols);
      OneKept(u, was, now, u.fks[n].cols);
    } else {
      assert v.columns == u.columns && v.pk == u.pk && v.unique == u.unique && v.fks[n].cols == u.fks[n].cols;
    }
  }

  // ---- renaming a table ----

  lemma RelabelledAt(cat: Catalog, was: string, now: string, k: string)
    requires was in cat && now !in cat && k in cat
    ensures Sub(was, now, k) in RenameTable(cat, was, now).value
    ensures RenameTable(cat, was, now).value[Sub(was, now, k)] == Relabelled(cat[k], was, now)
  {
  }

  /** Renaming a table to a fresh name keeps the schema well formed. */
  lemma TableRenameKeeps(cat: Catalog, was: string, now: string)
    requires WellFormed(cat) && was in cat && now !in cat
    ensures RenameTable(cat, was, now).Some? && WellFormed(RenameTable(cat, was, now).value)
  {
    var after := RenameTable(cat, was, now).value;
    forall m | m in after ensures TableOk(after, m) {
      var k := if m == now then was else m;
      assert TableOk(cat, k);
      RelabelledAt(cat, was, now, k);
      forall n | n in after[m].fks ensures FkOk(after, m, after[m].fks[n]) {
        assert FkOk(cat, k, cat[k].fks[n]);
        RelabelledAt(cat, was, now, cat[k].fks[n].parent);
      }
    }
  }

  ghost predicate Names(u: Table, name: string) {
    exists n :: n in u.fks && (u.fks[n].child == name || u.fks[n].parent == name)
  }

  ghost predicate Mentions(cat: Catalog, name: string) {
    exists k :: k in cat && Names(cat[k], name)
  }

  lemma RelabelledBack(u: Table, was: string, now: string)
    requires was != now && u.name != now
    ensures Relabelled(Relabelled(u, was, now), now, was) == u <==> !Names(u, now)
  {
    var b := Relabelled(Relabelled(u, was, now), now, was);
    forall n | n in u.fks
      ensures b.fks[n] == u.fks[n] <==> u.fks[n].child != now && u.fks[n].parent != now
    {
    }
    if !Names(u, now) { assert b.fks == u.fks; }
  }

  lemma RelabelledTwice(cat: Catalog, was: string, now: string)
    requires was in cat && now !in cat
    ensures RenameTable(cat, was, now).Some? && now in RenameTable(cat, was, now).value
    ensures var back := RenameTable(RenameTable(cat, was, now).value, now, was);
            && back.Some? && back.value.Keys == cat.Keys
            && forall k :: k in cat ==> back.value[k] == Relabelled(Relabelled(cat[k], was, now), now, was)
  {
    var after := RenameTable(cat, was, now).value;
    forall k | k in cat
      ensures Sub(was, now, k) in after && after[Sub(was, now, k)] == Relabelled(cat[k], was, now)
    {
      RelabelledAt(cat, was, now, k);
    }
    var back := RenameTable(after, now, was).value;
    assert back.Keys == cat.Keys;
    forall k | k in cat ensures back[k] == Relabelled(Relabelled(cat[k], was, now), now, was) {
      RelabelledAt(after, now, was, Sub(was, now, k));
    }
  }

  /** The reverse rename restores any catalogue exactly when no foreign key already named the new
      table: such a dangling reference is captured by the renamed table. */
  lemma TableRenameUndoneExactly(cat: Catalog, was: string, now: string)
    requires was in cat && now !in cat && forall k :: k in cat ==> cat[k].name == k
    ensures RenameTable(cat, was, now).Some? && now in RenameTable(cat, was, now).value
    ensures RenameTable(RenameTable(cat, was, now).value, now, was) == Some(cat) <==> !Mentions(cat, now)
  {
    RelabelledTwice(cat, was, now);
    var back := RenameTable(RenameTable(cat, was, now).value, now, was).value;
    forall k | k in cat ensures back[k] == cat[k] <==> !Names(cat[k], now) { RelabelledBack(cat[k], was, now); }
    if !Mentions(cat, now) { assert back == cat; }
  }

  /** One table with a foreign key to a table that does not exist. */
  function Dangling(fk: ForeignKey): (r: Catalog) { map["t" := Table("t", [], [], map[], map["f" := fk])] }

  /** ... which the table renamed to that name captures: renaming it back takes the reference along. */
  lemma CaptureIsNotUndone(fk: ForeignKey)
    requires fk.child == "t" && fk.parent == "gone"
    ensures var after := RenameTable(Dangling(fk), "t", "gone");
            && after.Some? && "gone" in after.value
            && RenameTable(after.value, "gone", "t").Some?
            && RenameTable(after.value, "gone", "t").value != Dangling(fk)
  {
    var cat := Dangling(fk);
    assert "t" != "gone";
    assert cat["t"].fks["f"].parent == "gone" && Names(cat["t"], "gone");
    assert Mentions(cat, "gone");
    RelabelledTwice(cat, "t", "gone");
    TableRenameUndoneExactly(cat, "t", "gone");
  }

  lemma WellFormedMentions(cat: Catalog, name: string)
    requires WellFormed(cat) && name !in cat
    ensures !Mentions(cat, name)
  {
    forall k, n | k in cat && n in cat[k].fks
      ensures cat[k].fks[n].child != name && cat[k].fks[n].parent != name
    {
      assert TableOk(cat, k) && FkOk(cat, k, cat[k].fks[n]);
    }
  }

  lemma TableRenameCardinality(cat: Catalog, was: string, now: string, sqlite: bool, k: string, n: string)
    requires WellFormed(cat) && was in cat && now !in cat && k in cat && n in cat[k].fks
    ensures TableOk(cat, k) && Sub(was, now, k) in RenameTable(cat, was, now).value
    ensures SameCardinality(cat[k], RenameTable(cat, was, now).value[Sub(was, now, k)], sqlite, n)
  {
    var u := cat[k];
    var v := Relabelled(u, was, now);
    assert TableOk(cat, k) && FkOk(cat, k, u.fks[n]);
    RelabelledAt(cat, was, now, k);
    assert v.columns == u.columns && v.pk == u.pk && v.unique == u.unique && v.fks[n].cols == u.fks[n].cols;
  }

  // ---- sequences of renames ----

  datatype Rename = OfColumn(table: string, was: string, now: string) | OfTable(was: string, now: string)

  function Do(cat: Catalog, r: Rename): (out: Option<Catalog>) {
    match r
    case OfColumn(t, was, now) => if t in cat then RenameColumn(cat, t, was, now) else Some(cat)
    case OfTable(was, now) => if was in cat then RenameTable(cat, was, now) else Some(cat)
  }

  function Run(cat: Catalog, rs: seq<Rename>): (r: Option<Catalog>)
    decreases |rs|
  {
    if rs == [] then Some(cat)
    else
      var next := Do(cat, rs[0]);
      if next.None? then None else Run(next.value, rs[1..])
  }

  /** The renamed thing exists, the new name does not. */
  predicate Fresh(cat: Catalog, r: Rename) {
    match r
    case OfColumn(t, was, now) => t in cat && Has(cat[t].columns, was) && !Has(cat[t].columns, now)
    case OfTable(was, now) => was in cat && now !in cat
  }

  predicate AllFresh(cat: Catalog, rs: seq<Rename>)
    decreases |rs|
  {
    rs == [] || (Fresh(cat, rs[0]) && Do(cat, rs[0]).Some? && AllFresh(Do(cat, rs[0]).value, rs[1..]))
  }

  function Back(r: Rename): (out: Rename) {
    match r
    case OfColumn(t, was, now) => OfColumn(t, now, was)
    case OfTable(was, now) => OfTable(now, was)
  }

  function Reverse(rs: seq<Rename>): (r: seq<Rename>) {
    if rs == [] then [] else Reverse(rs[1..]) + [Back(rs[0])]
  }

  function NameAfter(k: string, r: Rename): (out: string) {
    match r
    case OfColumn(_, _, _) => k
    case OfTable(was, now) => Sub(was, now, k)
  }

  function NameAfterAll(k: string, rs: seq<Rename>): (r: string)
    decreases |rs|
  {
    if rs == [] then k else NameAfterAll(NameAfter(k, rs[0]), rs[1..])
  }

  lemma FreshStep(cat: Catalog, r: Rename)
    requires WellFormed(cat) && Fresh(cat, r)
    ensures Do(cat, r).Some? && WellFormed(Do(cat, r).value) && Do(Do(cat, r).value, Back(r)) == Some(cat)
  {
    match r
    case OfColumn(t, was, now) =>
      ColumnRenameKeeps(cat, t, was, now);
      ColumnRenameUndone(cat, t, was, now);
    case OfTable(was, now) =>
      TableRenameKeeps(cat, was, now);
      WellFormedMentions(cat, now);
      assert forall k :: k in cat ==> TableOk(cat, k);
      TableRenameUndoneExactly(cat, was, now);
  }

  lemma {:induction false} RunLast(cat: Catalog, rs: seq<Rename>, r: Rename)
    ensures Run(cat, rs + [r]) == (if Run(cat, rs).None? then None else Do(Run(cat, rs).value, r))
    decreases |rs|
  {
    if rs == [] {
      assert ([] + [r])[1..] == [];
      assert Run(cat, [r]) == Do(cat, r);
    } else {
      assert (rs + [r])[1..] == rs[1..] + [r];
      if Do(cat, rs[0]).Some? { RunLast(Do(cat, rs[0]).value, rs[1..], r); }
    }
  }

  /** Any sequence of fresh renames goes through, leaves the schema well formed, and is undone by
      the reverse renames in reverse order. */
  lemma {:induction false} RenamesUndone(cat: Catalog, rs: seq<Rename>)
    requires WellFormed(cat) && AllFresh(cat, rs)
    ensures Run(cat, rs).Some? && WellFormed(Run(cat, rs).value)
    ensures Run(Run(cat, rs).value, Reverse(rs)) == Some(cat)
    decreases |rs|
  {
    if rs != [] {
      FreshStep(cat, rs[0]);
      RenamesUndone(Do(cat, rs[0]).value, rs[1..]);
      RunLast(Run(cat, rs).value, Reverse(rs[1..]), Back(rs[0]));
    }
  }

  /** ... and changes neither end of any foreign key of any table. */
  lemma {:induction false} RenamesKeepCardinality(cat: Catalog, rs: seq<Rename>, sqlite: bool, k: string, n: string)
    requires WellFormed(cat) && AllFresh(cat, rs) && k in cat && n in cat[k].fks
    ensures Run(cat, rs).Some? && NameAfterAll(k, rs) in Run(cat, rs).value
    ensures TableOk(cat, k) && AllIn(cat[k].fks[n].cols, cat[k].columns)
    ensures SameCardinality(cat[k], Run(cat, rs).value[NameAfterAll(k, rs)], sqlite, n)
    decreases |rs|
  {
    assert TableOk(cat, k) && FkOk(cat, k, cat[k].fks[n]);
    if rs != [] {
      FreshStep(cat, rs[0]);
      var next := Do(cat, rs[0]).value;
      match rs[0] {
        case OfColumn(t, was, now) => ColumnRenameCardinality(cat, t, was, now, sqlite, k, n);
        case OfTable(was, now) => TableRenameCardinality(cat, was, now, sqlite, k, n);
      }
      RenamesKeepCardinality(next, rs[1..], sqlite, NameAfter(k, rs[0]), n);
    }
  }
}
