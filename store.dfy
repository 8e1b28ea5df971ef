/** The SQLite database the program loads into, as far as the modelled code
    relies on it: tables with declared columns, NOT NULL and UNIQUE
    constraints, `CREATE TABLE IF NOT EXISTS`, a bulk load that either
    inserts every row of a file or fails without inserting any, and the
    column lookups that queries and updates do by name.

    A stored value is NULL or a text. SQLite's UNIQUE treats every NULL as
    distinct from every other value, NULL included. */
module Store {
  import opened Wrappers

  datatype Value = Null | Str(text: string)

  /** The declared types of the schemas: TEXT, INT, INTEGER, NUMBER, DATE. */
  datatype ColType = TextType | IntType | IntegerType | NumberType | DateType

  datatype Column = Column(name: string, declared: ColType, notNull: bool, unique: bool)

  datatype Schema = Schema(name: string, columns: seq<Column>)

  /** One stored row: a value per column, in declaration order. */
  type Record = seq<Value>

  datatype Table = Table(schema: Schema, rows: seq<Record>)

  /** The tables of a database by name. */
  type Catalog = map<string, Table>

  /** Why a row may not be stored. */
  datatype Violation =
    | ArityMismatch(found: nat)           // the row has a different number of fields
    | NotNullViolation(column: string)    // NULL in a NOT NULL column
    | UniqueViolation(column: string)     // a value already present in a UNIQUE column

  datatype DbError =
    | NoSuchTable(table: string)
    | NoSuchColumn(table: string, column: string)
    | MissingFile(path: string)
    | ConstraintFailed(table: string, row: nat, violation: Violation)

  /** The row has one value per column of the schema. */
  predicate Fits(s: Schema, rec: Record) {
    |rec| == |s.columns|
  }

  /** No two rows hold the same non-NULL value in column `c`. */
  predicate UniqueAt(rows: seq<Record>, c: nat) {
    forall i, j :: 0 <= i < j < |rows| && c < |rows[i]| && c < |rows[j]| && rows[i][c] != Null ==>
      rows[i][c] != rows[j][c]
  }

  /** Every row fits the schema and meets every declared constraint. */
  predicate Consistent(s: Schema, rows: seq<Record>) {
    (forall k :: 0 <= k < |rows| ==> Fits(s, rows[k]))
    && (forall k, c :: 0 <= k < |rows| && 0 <= c < |s.columns| && s.columns[c].notNull ==> rows[k][c] != Null)
    && (forall c :: 0 <= c < |s.columns| && s.columns[c].unique ==> UniqueAt(rows, c))
  }

  /** Some row already holds `v` in column `c`. */
  predicate Taken(rows: seq<Record>, c: nat, v: Value) {
    exists k :: 0 <= k < |rows| && c < |rows[k]| && rows[k][c] == v
  }

  /** The first column, from `c` on, whose constraint the fitting row `rec`
      breaks when added after `rows`. */
  function ColumnViolation(s: Schema, rows: seq<Record>, rec: Record, c: nat): (v: Option<Violation>)
    requires Fits(s, rec) && forall k :: 0 <= k < |rows| ==> Fits(s, rows[k])
    requires c <= |s.columns|
    ensures v.None? <==> forall d :: c <= d < |s.columns| ==> ColumnOk(s, rows, rec, d)
    decreases |s.columns| - c
  {
    if c == |s.columns| then None
    else if s.columns[c].notNull && rec[c] == Null then
      assert !ColumnOk(s, rows, rec, c);
      Some(NotNullViolation(s.columns[c].name))
    else if s.columns[c].unique && rec[c] != Null && Taken(rows, c, rec[c]) then
      assert !ColumnOk(s, rows, rec, c);
      Some(UniqueViolation(s.columns[c].name))
    else ColumnViolation(s, rows, rec, c + 1)
  }

  /** Column `d` of `rec` meets its constraints against the rows already stored. */
  predicate ColumnOk(s: Schema, rows: seq<Record>, rec: Record, d: nat)
    requires Fits(s, rec) && forall k :: 0 <= k < |rows| ==> Fits(s, rows[k])
    requires d < |s.columns|
  {
    !(s.columns[d].notNull && rec[d] == Null)
    && !(s.columns[d].unique && rec[d] != Null && Taken(rows, d, rec[d]))
  }

  /** The constraint check of one INSERT, in column order. */
  function Check(s: Schema, rows: seq<Record>, rec: Record): Option<Violation>
    requires forall k :: 0 <= k < |rows| ==> Fits(s, rows[k])
  {
    if !Fits(s, rec) then Some(ArityMismatch(|rec|)) else ColumnViolation(s, rows, rec, 0)
  }

  /** The INSERT check is exact: into consistent rows, a row passes it
      exactly when storing it keeps the rows consistent. */
  lemma CheckExact(s: Schema, rows: seq<Record>, rec: Record)
    requires Consistent(s, rows)
    ensures Check(s, rows, rec).None? <==> Consistent(s, rows + [rec])
  {
    var all := rows + [rec];
    if Check(s, rows, rec).None? {
      forall c | 0 <= c < |s.columns| && s.columns[c].unique
        ensures UniqueAt(all, c)
      {
        assert ColumnOk(s, rows, rec, c);
        forall i, j | 0 <= i < j < |all| && all[i][c] != Null
          ensures all[i][c] != all[j][c]
        {
          if j == |rows| {
            assert all[i] == rows[i] && all[j] == rec;
          } else {
            assert all[i] == rows[i] && all[j] == rows[j];
          }
        }
      }
      forall k, c | 0 <= k < |all| && 0 <= c < |s.columns| && s.columns[c].notNull
        ensures all[k][c] != Null
      {
        if k == |rows| {
          assert ColumnOk(s, rows, rec, c);
        } else {
          assert all[k] == rows[k];
        }
      }
    } else if Fits(s, rec) {
      var c :| 0 <= c < |s.columns| && !ColumnOk(s, rows, rec, c);
      assert all[|rows|] == rec;
      if s.columns[c].notNull && rec[c] == Null {
        assert !Consistent(s, all);
      } else {
        var k :| 0 <= k < |rows| && rows[k][c] == rec[c];
        assert all[k] == rows[k];
        assert !UniqueAt(all, c);
      }
    } else {
      assert all[|rows|] == rec;
    }
  }

  /** The position of the first column named `name`, if any. */
  function ColumnIndex(s: Schema, name: string): (r: Option<nat>)
    ensures r.Some? ==>
      r.value < |s.columns| && s.columns[r.value].name == name
      && forall j :: 0 <= j < r.value ==> s.columns[j].name != name
    ensures r.None? <==> forall j :: 0 <= j < |s.columns| ==> s.columns[j].name != name
  {
    IndexFrom(s.columns, name, 0)
  }

  function IndexFrom(cols: seq<Column>, name: string, from: nat): (r: Option<nat>)
    requires from <= |cols|
    ensures r.Some? ==>
      from <= r.value < |cols| && cols[r.value].name == name
      && forall j :: from <= j < r.value ==> cols[j].name != name
    ensures r.None? <==> forall j :: from <= j < |cols| ==> cols[j].name != name
    decreases |cols| - from
  {
    if from == |cols| then None
    else if cols[from].name == name then Some(from)
    else IndexFrom(cols, name, from + 1)
  }

  /** The search stops at a column of that name. */
  lemma IndexHere(cols: seq<Column>, name: string, k: nat)
    requires k < |cols| && cols[k].name == name
    ensures IndexFrom(cols, name, k) == Some(k)
  {
  }

  /** The search passes over a column of another name. */
  lemma IndexSkip(cols: seq<Column>, name: string, k: nat)
    requires k < |cols| && cols[k].name != name
    ensures IndexFrom(cols, name, k) == IndexFrom(cols, name, k + 1)
  {
  }

  /** ActiveRecord's `attributes[key]` on a row of a table with schema
      `s`: the row's value in the column of that name, and nil when the
      table has no such column. */
  function Attribute(s: Schema, rec: Record, key: string): (v: Value)
    ensures ColumnIndex(s, key).None? ==> v == Null
    ensures ColumnIndex(s, key).Some? && ColumnIndex(s, key).value < |rec| ==> v == rec[ColumnIndex(s, key).value]
  {
    match ColumnIndex(s, key)
    case None => Null
    case Some(c) => if c < |rec| then rec[c] else Null
  }

  /** `CREATE TABLE IF NOT EXISTS`: a table of that name is left alone,
      rows and all; otherwise an empty table with the schema appears. */
  function Ensure(tables: Catalog, s: Schema): (r: Catalog)
    ensures s.name in r
    ensures s.name !in tables ==> r[s.name] == Table(s, [])
    ensures forall n :: n in tables ==> n in r && r[n] == tables[n]
    ensures forall n :: n in r ==> n in tables || n == s.name
  {
    if s.name in tables then tables else tables[s.name := Table(s, [])]
  }

  lemma EnsureIdempotent(tables: Catalog, s: Schema)
    ensures s.name in Ensure(tables, s)
    ensures Ensure(Ensure(tables, s), s) == Ensure(tables, s)
    ensures forall n :: n in tables ==> n in Ensure(tables, s) && Ensure(tables, s)[n] == tables[n]
    ensures forall n :: n in Ensure(tables, s) ==> n in tables || n == s.name
  {
  }

  /** Every table is filed under its own name and its rows are consistent. */
  predicate Sound(tables: Catalog) {
    forall n :: n in tables ==> tables[n].schema.name == n && Consistent(tables[n].schema, tables[n].rows)
  }

  /** What a bulk load of `recs` into table `name` yields: the rows stored
      after it, or the first row that cannot be stored and why. */
  function LoadOutcome(tables: Catalog, name: string, recs: seq<Record>): (r: Result<seq<Record>, DbError>)
    requires Sound(tables)
    ensures name !in tables ==> r == Failure(NoSuchTable(name))
    ensures r.Success? ==>
      name in tables && r.value == tables[name].rows + recs && Consistent(tables[name].schema, r.value)
    ensures r.Failure? && name in tables ==>
      r.error.ConstraintFailed? && r.error.table == name && r.error.row < |recs|
  {
    if name !in tables then Failure(NoSuchTable(name))
    else
      assert recs[0..] == recs;
      LoadFrom(tables[name].schema, tables[name].rows, recs, 0, name)
  }

  /** Insert `recs[i..]` after `rows`, one row at a time, stopping at the
      first that breaks a constraint. */
  function LoadFrom(s: Schema, rows: seq<Record>, recs: seq<Record>, i: nat, name: string): (r: Result<seq<Record>, DbError>)
    requires Consistent(s, rows) && i <= |recs|
    ensures r.Success? ==> r.value == rows + recs[i..] && Consistent(s, r.value)
    ensures r.Failure? ==>
      r.error.ConstraintFailed? && r.error.table == name
      && i <= r.error.row < |recs|
      && Consistent(s, rows + recs[i..r.error.row])
      && !Consistent(s, rows + recs[i..r.error.row + 1])
    decreases |recs| - i
  {
    if i == |recs| then
      assert recs[i..] == [];
      Success(rows)
    else
      CheckExact(s, rows, recs[i]);
      match Check(s, rows, recs[i])
      case Some(v) =>
        assert recs[i..i] == [] && recs[i..i + 1] == [recs[i]];
        assert rows + recs[i..i + 1] == rows + [recs[i]];
        Failure(ConstraintFailed(name, i, v))
      case None =>
        var r := LoadFrom(s, rows + [recs[i]], recs, i + 1, name);
        Shift(rows, recs, i, |recs|);
        assert recs[i..|recs|] == recs[i..] && recs[i + 1..|recs|] == recs[i + 1..];
        if r.Success? then r
        else
          Shift(rows, recs, i, r.error.row);
          Shift(rows, recs, i, r.error.row + 1);
          r
  }

  lemma Shift(rows: seq<Record>, recs: seq<Record>, i: nat, k: nat)
    requires i < k <= |recs|
    ensures rows + [recs[i]] + recs[i + 1..k] == rows + recs[i..k]
  {
    assert recs[i..k] == [recs[i]] + recs[i + 1..k];
  }

  /** A load is all or nothing: it succeeds exactly when the table exists and
      the old rows followed by the new rows meet every constraint. */
  lemma LoadAllOrNothing(tables: Catalog, name: string, recs: seq<Record>)
    requires Sound(tables)
    ensures LoadOutcome(tables, name, recs).Success? <==>
      name in tables && Consistent(tables[name].schema, tables[name].rows + recs)
    ensures LoadOutcome(tables, name, recs).Success? ==>
      LoadOutcome(tables, name, recs).value == tables[name].rows + recs
  {
    if name in tables {
      var s, rows := tables[name].schema, tables[name].rows;
      assert recs[0..] == recs;
      var r := LoadFrom(s, rows, recs, 0, name);
      if r.Failure? {
        var k := r.error.row;
        ConsistentPrefix(s, rows + recs, |rows| + k + 1);
        assert (rows + recs)[..|rows| + k + 1] == rows + recs[0..k + 1];
      }
    }
  }

  /** Constraints that hold of a whole table hold of every prefix of it. */
  lemma ConsistentPrefix(s: Schema, rows: seq<Record>, n: nat)
    requires n <= |rows|
    ensures Consistent(s, rows) ==> Consistent(s, rows[..n])
  {
    if Consistent(s, rows) {
      var p := rows[..n];
      forall c | 0 <= c < |s.columns| && s.columns[c].unique
        ensures UniqueAt(p, c)
      {
        assert UniqueAt(rows, c);
      }
    }
  }

  /** A duplicate non-NULL value in a UNIQUE column of the file makes the
      load fail. */
  lemma DuplicateRejected(tables: Catalog, name: string, recs: seq<Record>, c: nat, i: nat, j: nat)
    requires Sound(tables) && name in tables
    requires c < |tables[name].schema.columns| && tables[name].schema.columns[c].unique
    requires i < j < |recs| && c < |recs[i]| && c < |recs[j]|
    requires recs[i][c] != Null && recs[i][c] == recs[j][c]
    ensures LoadOutcome(tables, name, recs).Failure?
  {
    LoadAllOrNothing(tables, name, recs);
    var rows := tables[name].rows;
    var all := rows + recs;
    assert all[|rows| + i] == recs[i] && all[|rows| + j] == recs[j];
  }

  /** The database: its tables by name. */
  class Database {
    var tables: Catalog

    ghost predicate Valid()
      reads this
    {
      Sound(tables)
    }

    constructor ()
      ensures Valid() && tables == map[]
    {
      tables := map[];
    }

    /** `CREATE TABLE IF NOT EXISTS`. */
    method EnsureSchema(s: Schema)
      requires Valid()
      modifies this
      ensures Valid()
      ensures tables == Ensure(old(tables), s)
    {
      if s.name !in tables {
        assert Consistent(s, []);
        tables := tables[s.name := Table(s, [])];
      }
    }

    /** The bulk load of one file: rows inserted one at a time into a
        pending copy of the table, which replaces the table only when
        every row went in. */
    method Load(name: string, recs: seq<Record>) returns (r: Result<nat, DbError>)
      requires Valid()
      modifies this
      ensures Valid()
      ensures var o := LoadOutcome(old(tables), name, recs);
        match o
        case Success(rows) => r == Success(|recs|) && tables == old(tables)[name := Table(old(tables)[name].schema, rows)]
        case Failure(e) => r == Failure(e) && tables == old(tables)
    {
      if name !in tables {
        return Failure(NoSuchTable(name));
      }
      var s := tables[name].schema;
      var start := tables[name].rows;
      var pending := start;
      var i := 0;
      while i < |recs|
        invariant 0 <= i <= |recs|
        invariant tables == old(tables)
        invariant Consistent(s, pending)
        invariant LoadFrom(s, pending, recs, i, name) == LoadFrom(s, start, recs, 0, name)
      {
        CheckExact(s, pending, recs[i]);
        var v := Check(s, pending, recs[i]);
        if v.Some? {
          return Failure(ConstraintFailed(name, i, v.value));
        }
        pending := pending + [recs[i]];
        i := i + 1;
      }
      tables := tables[name := Table(s, pending)];
      r := Success(|recs|);
    }
  }
}
