/** fec/database.rb: the row and distinct-value counts behind `uniq_test`,
    and the post-load cleanup that turns empty texts into NULL. The queries
    are functions of the catalog; the cleanup is an UPDATE of one table. */
module FecDatabase {
  import opened Wrappers
  import opened Store
  import Importer

  /** `SELECT COUNT(*) FROM table`. */
  function RowCount(tables: Catalog, table: string): (r: Result<nat, DbError>)
    ensures r.Success? <==> table in tables
    ensures r.Failure? ==> r.error == NoSuchTable(table)
    ensures r.Success? ==> r.value == |tables[table].rows|
  {
    if table !in tables then Failure(NoSuchTable(table)) else Success(|tables[table].rows|)
  }

  /** A successful bulk load grows the loaded table's count by the number
      of records loaded and leaves every other table's count as it was;
      a failed one changes no count. */
  lemma RowCountAfterLoad(tables: Catalog, name: string, recs: seq<Record>, other: string)
    requires Sound(tables)
    ensures match LoadOutcome(tables, name, recs)
      case Success(rows) =>
        var after := tables[name := Table(tables[name].schema, rows)];
        RowCount(after, name) == Success(RowCount(tables, name).value + |recs|)
        && (other != name ==> RowCount(after, other) == RowCount(tables, other))
      case Failure(_) => true
  {
    LoadAllOrNothing(tables, name, recs);
  }

  /** The distinct non-NULL values of column `c`. */
  function ColumnValues(rows: seq<Record>, c: nat): set<Value> {
    set i | 0 <= i < |rows| && c < |rows[i]| && rows[i][c] != Null :: rows[i][c]
  }

  /** `SELECT COUNT(DISTINCT column) FROM table`: NULLs are not counted. */
  function DistinctColumnCount(tables: Catalog, table: string, column: string): (r: Result<nat, DbError>)
    ensures r.Success? <==> table in tables && ColumnIndex(tables[table].schema, column).Some?
    ensures table !in tables ==> r == Failure(NoSuchTable(table))
    ensures table in tables && ColumnIndex(tables[table].schema, column).None? ==> r == Failure(NoSuchColumn(table, column))
    ensures r.Success? ==> r.value <= |tables[table].rows|
  {
    if table !in tables then Failure(NoSuchTable(table))
    else match ColumnIndex(tables[table].schema, column)
      case None => Failure(NoSuchColumn(table, column))
      case Some(c) =>
        ValuesAtMostRows(tables[table].rows, c);
        Success(|ColumnValues(tables[table].rows, c)|)
  }

  /** Column `c` holds a non-NULL value in every row, no two alike. */
  predicate DistinctNonNull(rows: seq<Record>, c: nat) {
    (forall i :: 0 <= i < |rows| ==> c < |rows[i]| && rows[i][c] != Null)
    && forall i, j :: 0 <= i < j < |rows| ==> rows[i][c] != rows[j][c]
  }

  /** The values of all rows are those of all but the last, plus the last
      row's value when it is not NULL. */
  lemma ValuesSnoc(rows: seq<Record>, c: nat)
    requires rows != []
    ensures var init := rows[..|rows| - 1];
      var last := rows[|rows| - 1];
      ColumnValues(rows, c) ==
        ColumnValues(init, c) + (if c < |last| && last[c] != Null then {last[c]} else {})
  {
    var init := rows[..|rows| - 1];
    assert forall i :: 0 <= i < |init| ==> init[i] == rows[i];
  }

  /** There are at most as many distinct values as rows. */
  lemma {:induction false} ValuesAtMostRows(rows: seq<Record>, c: nat)
    ensures |ColumnValues(rows, c)| <= |rows|
  {
    if rows != [] {
      ValuesSnoc(rows, c);
      ValuesAtMostRows(rows[..|rows| - 1], c);
    }
  }

  /** Distinct non-NULL values in every row give one value per row. */
  lemma {:induction false} DistinctGivesCount(rows: seq<Record>, c: nat)
    requires DistinctNonNull(rows, c)
    ensures |ColumnValues(rows, c)| == |rows|
  {
    if rows != [] {
      var init := rows[..|rows| - 1];
      var last := rows[|rows| - 1];
      ValuesSnoc(rows, c);
      assert forall i :: 0 <= i < |init| ==> init[i] == rows[i];
      assert DistinctNonNull(init, c);
      DistinctGivesCount(init, c);
    }
  }

  /** One value per row means each row holds its own non-NULL value. */
  lemma {:induction false} CountGivesDistinct(rows: seq<Record>, c: nat)
    requires |ColumnValues(rows, c)| == |rows|
    ensures DistinctNonNull(rows, c)
  {
    if rows != [] {
      var init := rows[..|rows| - 1];
      var last := rows[|rows| - 1];
      ValuesSnoc(rows, c);
      ValuesAtMostRows(init, c);
      assert c < |last| && last[c] != Null && last[c] !in ColumnValues(init, c);
      CountGivesDistinct(init, c);
      DistinctSnoc(rows, c);
    }
  }

  /** A last row whose value is new extends a column of distinct values. */
  lemma DistinctSnoc(rows: seq<Record>, c: nat)
    requires rows != []
    requires DistinctNonNull(rows[..|rows| - 1], c)
    requires c < |rows[|rows| - 1]| && rows[|rows| - 1][c] != Null
    requires rows[|rows| - 1][c] !in ColumnValues(rows[..|rows| - 1], c)
    ensures DistinctNonNull(rows, c)
  {
    var init := rows[..|rows| - 1];
    assert forall i :: 0 <= i < |init| ==> init[i] == rows[i];
    forall i, j | 0 <= i < j < |rows|
      ensures rows[i][c] != rows[j][c]
    {
      if j == |rows| - 1 {
        assert init[i][c] in ColumnValues(init, c);
      }
    }
  }

  /** There are at most as many distinct values as rows, and exactly as
      many precisely when every row has its own non-NULL value. */
  lemma ColumnValuesCount(rows: seq<Record>, c: nat)
    ensures |ColumnValues(rows, c)| <= |rows|
    ensures |ColumnValues(rows, c)| == |rows| <==> DistinctNonNull(rows, c)
  {
    ValuesAtMostRows(rows, c);
    if DistinctNonNull(rows, c) {
      DistinctGivesCount(rows, c);
    }
    if |ColumnValues(rows, c)| == |rows| {
      CountGivesDistinct(rows, c);
    }
  }

  /** `distinct_column_count` never exceeds `row_count`. */
  lemma DistinctAtMostRows(tables: Catalog, table: string, column: string)
    requires DistinctColumnCount(tables, table, column).Success?
    ensures RowCount(tables, table).Success?
    ensures DistinctColumnCount(tables, table, column).value <= RowCount(tables, table).value
  {
    ColumnValuesCount(tables[table].rows, ColumnIndex(tables[table].schema, column).value);
  }

  /** What `uniq_test` reports: uniqueness, or the two counts whose ratio
      it prints. */
  datatype UniqReport = IsUnique | UniqueFactor(distinct: nat, count: nat)

  /** `Database.uniq_test(table, column)`. */
  function UniqTest(tables: Catalog, table: string, column: string): (r: Result<UniqReport, DbError>)
    ensures r.Success? <==> DistinctColumnCount(tables, table, column).Success?
    ensures r.Success? ==> RowCount(tables, table).Success?
    ensures r.Success? ==>
      (r.value.IsUnique? <==> RowCount(tables, table).value == DistinctColumnCount(tables, table, column).value)
    ensures r.Success? && r.value.UniqueFactor? ==>
      r.value.distinct < r.value.count
      && r.value.distinct == DistinctColumnCount(tables, table, column).value
      && r.value.count == RowCount(tables, table).value
  {
    match DistinctColumnCount(tables, table, column)
    case Failure(e) => Failure(e)
    case Success(distinct) =>
      DistinctAtMostRows(tables, table, column);
      var count := RowCount(tables, table).value;
      if count == distinct then Success(IsUnique) else Success(UniqueFactor(distinct, count))
  }

  /** `uniq_test` reports uniqueness exactly when every row holds its own
      non-NULL value in the column. */
  lemma UniqTestMeaning(tables: Catalog, table: string, column: string)
    requires UniqTest(tables, table, column).Success?
    ensures var c := ColumnIndex(tables[table].schema, column).value;
      UniqTest(tables, table, column).value.IsUnique? <==> DistinctNonNull(tables[table].rows, c)
  {
    ColumnValuesCount(tables[table].rows, ColumnIndex(tables[table].schema, column).value);
  }

  /** A column declared NOT NULL UNIQUE always passes `uniq_test`. */
  lemma DeclaredKeyIsUnique(tables: Catalog, table: string, column: string)
    requires Sound(tables) && table in tables
    requires ColumnIndex(tables[table].schema, column).Some?
    requires var c := ColumnIndex(tables[table].schema, column).value;
      tables[table].schema.columns[c].notNull && tables[table].schema.columns[c].unique
    ensures UniqTest(tables, table, column) == Success(IsUnique)
  {
    var t := tables[table];
    var c := ColumnIndex(t.schema, column).value;
    assert UniqueAt(t.rows, c);
    ColumnValuesCount(t.rows, c);
  }

  /** The rows after `UPDATE … SET column = NULL WHERE column = ''`. */
  function BlankToNull(rows: seq<Record>, c: nat): (out: seq<Record>)
    ensures |out| == |rows|
  {
    seq(|rows|, i requires 0 <= i < |rows| => Blanked(rows[i], c))
  }

  function Blanked(rec: Record, c: nat): Record {
    if c < |rec| && rec[c] == Str("") then rec[c := Null] else rec
  }

  /** After the update no row holds '' in the column, rows that held ''
      hold NULL, and every other cell of every row is unchanged. */
  lemma BlankToNullEffect(rows: seq<Record>, c: nat)
    ensures forall i :: 0 <= i < |rows| ==> |BlankToNull(rows, c)[i]| == |rows[i]|
    ensures forall i :: 0 <= i < |rows| && c < |rows[i]| ==> BlankToNull(rows, c)[i][c] != Str("")
    ensures forall i :: 0 <= i < |rows| && c < |rows[i]| ==>
      BlankToNull(rows, c)[i][c] == if rows[i][c] == Str("") then Null else rows[i][c]
    ensures forall i, d :: 0 <= i < |rows| && 0 <= d < |rows[i]| && d != c ==> BlankToNull(rows, c)[i][d] == rows[i][d]
  {
  }

  /** Running the update twice is running it once. */
  lemma BlankToNullIdempotent(rows: seq<Record>, c: nat)
    ensures BlankToNull(BlankToNull(rows, c), c) == BlankToNull(rows, c)
  {
    var once := BlankToNull(rows, c);
    forall i | 0 <= i < |rows|
      ensures Blanked(once[i], c) == once[i]
    {
    }
  }

  /** The first row holding '' in column `c`, if any. */
  function FirstBlank(rows: seq<Record>, c: nat, from: nat): (r: Option<nat>)
    requires from <= |rows|
    ensures r.Some? ==> from <= r.value < |rows| && c < |rows[r.value]| && rows[r.value][c] == Str("")
    ensures r.None? <==> forall i :: from <= i < |rows| && c < |rows[i]| ==> rows[i][c] != Str("")
    decreases |rows| - from
  {
    if from == |rows| then None
    else if c < |rows[from]| && rows[from][c] == Str("") then Some(from)
    else FirstBlank(rows, c, from + 1)
  }

  /** What the update does: the table's rows afterwards, or the error. A
      NOT NULL column holding '' makes the whole statement fail. */
  function ConvertOutcome(tables: Catalog, table: string, column: string): (r: Result<seq<Record>, DbError>)
    ensures table !in tables ==> r == Failure(NoSuchTable(table))
    ensures table in tables && ColumnIndex(tables[table].schema, column).None? ==> r == Failure(NoSuchColumn(table, column))
    ensures r.Failure? && r.error.ConstraintFailed? ==>
      var c := ColumnIndex(tables[table].schema, column).value;
      tables[table].schema.columns[c].notNull
      && r.error.row < |tables[table].rows| && c < |tables[table].rows[r.error.row]|
      && tables[table].rows[r.error.row][c] == Str("")
    ensures r.Success? ==>
      var c := ColumnIndex(tables[table].schema, column).value;
      |r.value| == |tables[table].rows|
      && forall i :: 0 <= i < |r.value| && c < |r.value[i]| ==> r.value[i][c] != Str("")
  {
    if table !in tables then Failure(NoSuchTable(table))
    else
      var t := tables[table];
      match ColumnIndex(t.schema, column)
      case None => Failure(NoSuchColumn(table, column))
      case Some(c) =>
        if t.schema.columns[c].notNull && FirstBlank(t.rows, c, 0).Some? then
          Failure(ConstraintFailed(table, FirstBlank(t.rows, c, 0).value, NotNullViolation(column)))
        else
          BlankToNullEffect(t.rows, c);
          Success(BlankToNull(t.rows, c))
  }

  /** The update keeps a consistent table consistent, keeps its row count,
      and changes only the named table. */
  lemma ConvertKeepsSound(tables: Catalog, table: string, column: string)
    requires Sound(tables)
    requires ConvertOutcome(tables, table, column).Success?
    ensures var rows := ConvertOutcome(tables, table, column).value;
      var after := tables[table := Table(tables[table].schema, rows)];
      RowCount(after, table) == RowCount(tables, table)
      && Sound(after)
  {
    var t := tables[table];
    var c := ColumnIndex(t.schema, column).value;
    var rows := BlankToNull(t.rows, c);
    BlankToNullEffect(t.rows, c);
    forall d | 0 <= d < |t.schema.columns| && t.schema.columns[d].unique
      ensures UniqueAt(rows, d)
    {
      assert UniqueAt(t.rows, d);
      forall i, j | 0 <= i < j < |rows| && d < |rows[i]| && d < |rows[j]| && rows[i][d] != Null
        ensures rows[i][d] != rows[j][d]
      {
        assert rows[i][d] == t.rows[i][d];
        if d != c {
          assert rows[j][d] == t.rows[j][d];
        }
      }
    }
    forall k, d | 0 <= k < |rows| && 0 <= d < |t.schema.columns| && t.schema.columns[d].notNull
      ensures rows[k][d] != Null
    {
      if d == c {
        assert FirstBlank(t.rows, c, 0).None?;
      }
    }
  }

  /** `Database.convert_column_blank_strings_to_null(table, column)`: one
      UPDATE, applied row by row to a pending copy that replaces the table
      only when no row fails. */
  method ConvertColumnBlankStringsToNull(db: Database, table: string, column: string) returns (r: Result<(), DbError>)
    requires db.Valid()
    modifies db
    ensures db.Valid()
    ensures match ConvertOutcome(old(db.tables), table, column)
      case Success(rows) => r.Success? && table in old(db.tables)
        && db.tables == old(db.tables)[table := Table(old(db.tables)[table].schema, rows)]
      case Failure(e) => r == Failure(e) && db.tables == old(db.tables)
  {
    if table !in db.tables {
      return Failure(NoSuchTable(table));
    }
    var t := db.tables[table];
    var index := ColumnIndex(t.schema, column);
    if index.None? {
      return Failure(NoSuchColumn(table, column));
    }
    var c := index.value;
    var updated: seq<Record> := [];
    var i := 0;
    while i < |t.rows|
      invariant 0 <= i <= |t.rows|
      invariant db.tables == old(db.tables)
      invariant updated == BlankToNull(t.rows[..i], c)
      invariant FirstBlank(t.rows, c, 0) == FirstBlank(t.rows, c, i) || FirstBlank(t.rows, c, 0).value < i
      invariant t.schema.columns[c].notNull ==> FirstBlank(t.rows, c, 0) == FirstBlank(t.rows, c, i)
    {
      var rec := t.rows[i];
      if c < |rec| && rec[c] == Str("") {
        if t.schema.columns[c].notNull {
          return Failure(ConstraintFailed(table, i, NotNullViolation(column)));
        }
        rec := rec[c := Null];
      }
      assert t.rows[..i + 1] == t.rows[..i] + [t.rows[i]];
      updated := updated + [rec];
      i := i + 1;
    }
    assert t.rows[..i] == t.rows;
    ConvertKeepsSound(db.tables, table, column);
    db.tables := db.tables[table := Table(t.schema, updated)];
    r := Success(());
  }

  /** The committees schema's `CAND_ID` is its fifteenth column and is not
      NOT NULL, worked out column by column. */
  lemma CommitteesCandId()
    ensures ColumnIndex(Importer.CommitteesSchema, "CAND_ID") == Some(14)
    ensures !Importer.CommitteesSchema.columns[14].notNull
  {
    var cols := Importer.CommitteesSchema.columns;
    IndexHere(cols, "CAND_ID", 14);
    IndexSkip(cols, "CAND_ID", 13);
    IndexSkip(cols, "CAND_ID", 12);
    IndexSkip(cols, "CAND_ID", 11);
    IndexSkip(cols, "CAND_ID", 10);
    IndexSkip(cols, "CAND_ID", 9);
    IndexSkip(cols, "CAND_ID", 8);
    IndexSkip(cols, "CAND_ID", 7);
    IndexSkip(cols, "CAND_ID", 6);
    IndexSkip(cols, "CAND_ID", 5);
    IndexSkip(cols, "CAND_ID", 4);
    IndexSkip(cols, "CAND_ID", 3);
    IndexSkip(cols, "CAND_ID", 2);
    IndexSkip(cols, "CAND_ID", 1);
    IndexSkip(cols, "CAND_ID", 0);
  }

  /** `Database.clean_data`. */
  method CleanData(db: Database) returns (r: Result<(), DbError>)
    requires db.Valid()
    modifies db
    ensures db.Valid()
    ensures match ConvertOutcome(old(db.tables), "committees", "CAND_ID")
      case Success(rows) => r.Success? && "committees" in old(db.tables)
        && db.tables == old(db.tables)["committees" := Table(old(db.tables)["committees"].schema, rows)]
      case Failure(e) => r == Failure(e) && db.tables == old(db.tables)
  {
    r := ConvertColumnBlankStringsToNull(db, "committees", "CAND_ID");
  }

  /** `clean_data` changes nothing but the `CAND_ID` cells of committees
      and, on the committees table `setup_database` creates, cannot fail. */
  lemma CleanDataScope(tables: Catalog)
    requires Sound(tables) && "committees" in tables && tables["committees"].schema == Importer.CommitteesSchema
    ensures ConvertOutcome(tables, "committees", "CAND_ID").Success?
    ensures var rows := ConvertOutcome(tables, "committees", "CAND_ID").value;
      var old_rows := tables["committees"].rows;
      |rows| == |old_rows|
      && (forall i, d :: 0 <= i < |rows| && 0 <= d < |old_rows[i]| && d != 14 ==> rows[i][d] == old_rows[i][d])
      && (forall i :: 0 <= i < |rows| && 14 < |old_rows[i]| ==> rows[i][14] != Str(""))
  {
    CommitteesCandId();
    BlankToNullEffect(tables["committees"].rows, 14);
  }
}
