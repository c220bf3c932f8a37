/**
 * The loader of Modules/resqlconnection/methods.py: the `Method` object with
 * its bounded `max_varchar`, the dtype-to-SQL-type rule, the shapes of input
 * `push_data` accepts and the frame each becomes, and what `df_to_db` does to
 * the frame and to the database, down to the de-duplication statement.
 *
 * The database is not a store here. Its answers (the table's columns, whether
 * the schema exists, whether each append is accepted, the row counts) come in
 * as a `Db` record. Everything the loader does to it or through it comes out as
 * a sequence of `Effect`s, in the order the calls are made.
 */
module ResqlMethods {
  import opened Wrappers
  import opened Seqs
  import opened Text
  import opened SqlTypes
  import opened SqlText

  // ---------------------------------------------------------------------------
  // Data

  /**
   * A cell value as a crawler produces it. `ListV` is a list pandas keeps whole
   * in one cell of an object column; a list given as input, or as an element of
   * one, is a `ListInput` or a `Sublist` instead.
   */
  datatype Value = NullV | IntV(i: int) | FloatV(f: real) | StrV(s: string) | BoolV(b: bool) | TimeV(t: int)
                 | ListV(vs: seq<Value>)

  /** An element of a list or tuple input: a plain value or a nested list. */
  datatype Item = Atom(v: Value) | Sublist(vs: seq<Value>)

  /** The `input_data` of `push_data`, by its Python type. */
  datatype Payload =
    | NoneInput
    | ListInput(items: seq<Item>)
      /** Any other iterable of items: a tuple, a set, a generator. */
    | OtherIterable(items: seq<Item>)
    | FrameInput(frame: Frame)
      /** A two-dimensional `numpy.ndarray`, row by row. */
    | ArrayInput(width: nat, cells: seq<seq<Value>>)
    | DictInput(entries: seq<(Value, Value)>)
    | ScalarInput(v: Value)

  datatype LoadError =
    | VarcharTooBig          // "Varchar too big, maximum is 1023"
    | VarcharZero            // "Varchar size cannot be 0"
    | InputIsNone            // "Input_data can not be None"
    | ColumnListMissing      // `len(None)` in the guard: TypeError
    | AllValueColumns        // "every column cant be a value column!"
    | NotIterable            // iterating a number in the nested-list test: TypeError
    | ShapeMismatch          // pandas refuses the column names for the data
    | RowNotSized            // `len()` of a plain value read as a row of a nested list: TypeError
    | LabelMissing           // `df.dtypes[i]` on integer column labels plus the stamp column: KeyError
    | UnrecognisedInput      // "DID NOT RECOGNISE INPUT: ..."
    | AddFailed              // "Adding to <schema>.<table> failed. ..."
    | DedupRejected          // the server refuses the de-duplication statement

  /** What the loader does outside itself, in order. */
  datatype Effect =
    | Email(notice: Notice)
    | CreateSchema(schema: string)
    | DropSchema(schema: string)
      /** `df.to_sql(..., if_exists="append", chunksize=..., dtype=...)`. */
    | Append(chunkSize: int, dtype: Option<map<string, SqlType>>)
      /** A statement sent with `sql_conn.execute`. */
    | Execute(statement: string)
      /** A row of the monitoring table: lines added, success. */
    | Monitor(lines: int, successful: bool)

  /** The database's answers to the loader's questions during one load. */
  datatype Db = Db(
    tableColumns: seq<string>,     // COLUMN_NAME of the target table when `push_data` checks its guard
    schemaExists: bool,            // CreateSchema fails iff the schema is there
    appendAccepted: bool,          // the first `to_sql` succeeds
    columnsAtRetry: seq<string>,   // the table's columns, read again after the first `to_sql` is refused
    retryAccepted: bool,           // the `to_sql` after adding columns succeeds
    failureText: string,           // `str(e)` when the retry fails
    columnsAtDedup: seq<string>,   // the table's columns when de-duplicating
    dedupAccepted: bool,           // the server runs the de-duplication statement
    dbName: string,
    rowsBefore: int,
    rowsAfter: int)

  /** What an email of the loader reports; `Subject` and `Body` give its text. */
  datatype Notice =
    | InputMissing
    | AllValue
    | UnrecognisedShape(schema: string, table: string)
    | AddFailure(schema: string, table: string, failureText: string)
    | NewData(table: string, before: int, after: int, added: seq<string>)

  const ErrorSubject: string := "Crawler Error"

  /** The subject: the default of `send_email` for every error, a headline for new data. */
  function Subject(n: Notice): (s: string)
    ensures n.NewData? <==> s != ErrorSubject
  {
    if n.NewData? then
      var s := "New data added to " + n.table;
      assert |s| > |ErrorSubject|;
      s
    else ErrorSubject
  }

  function Body(n: Notice): string
  {
    match n
    case InputMissing => "Input data cannot be None / empty"
    case AllValue => "Every column cannot be a value column"
    case UnrecognisedShape(schema, table) =>
      "Did not recognize data structure for insert into " + schema + "." + table + " crawler. Please change data structure"
    case AddFailure(schema, table, failureText) =>
      "Adding to " + schema + "." + table + " failed. The following error occured: " + failureText
    case NewData(table, before, after, added) => LoadSummary(table, before, after, added)
  }

  /** `send_email`: nothing is sent when there are no recipients. */
  function Notify(recipients: Option<string>, notice: Notice): (e: seq<Effect>)
    ensures |e| <= 1
    ensures |e| == 1 <==> recipients.Some?
    ensures forall x :: x in e ==> x == Email(notice)
  {
    if recipients.Some? then [Email(notice)] else []
  }

  /** The dtype pandas infers for a column of values (an approximation of its inference). */
  function InferDtype(column: seq<Value>): string
  {
    if |column| > 0 && forall i :: 0 <= i < |column| ==> column[i].IntV? then "int64"
    else if (exists i :: 0 <= i < |column| && (column[i].IntV? || column[i].FloatV?)) &&
            (forall i :: 0 <= i < |column| ==> column[i].IntV? || column[i].FloatV? || column[i].NullV?) then "float64"
    else if |column| > 0 && forall i :: 0 <= i < |column| ==> column[i].BoolV? then "bool"
    else if |column| > 0 && forall i :: 0 <= i < |column| ==> column[i].TimeV? then "datetime64[ns]"
    else "object"
  }

  /** Rows of equal width. */
  predicate Rectangular(rows: seq<seq<Value>>, width: nat)
  {
    forall i :: 0 <= i < |rows| ==> |rows[i]| == width
  }

  /** Column `j` of a rectangular table. */
  function ColumnAt(rows: seq<seq<Value>>, j: nat): (c: seq<Value>)
    requires forall i :: 0 <= i < |rows| ==> j < |rows[i]|
    ensures |c| == |rows|
  {
    seq(|rows|, i requires 0 <= i < |rows| => rows[i][j])
  }

  // ---------------------------------------------------------------------------
  // The data frame

  /** A pandas `DataFrame`: named columns with dtypes, and rows. */
  class Frame {
    var columns: seq<string>
    var dtypes: seq<string>
    var rows: seq<seq<Value>>

    ghost predicate Valid()
      reads this
    {
      |dtypes| == |columns| && Rectangular(rows, |columns|)
    }

    /** `pd.DataFrame(rows, columns=columns)`, with the dtypes pandas infers. */
    constructor (columns: seq<string>, rows: seq<seq<Value>>)
      requires Rectangular(rows, |columns|)
      ensures Valid()
      ensures this.columns == columns && this.rows == rows
      ensures dtypes == FrameDtypes(columns, rows)
    {
      this.columns := columns;
      this.rows := rows;
      this.dtypes := FrameDtypes(columns, rows);
    }

    /** `df[name] = value`: a new last column holding `value` in every row. */
    method AddColumn(name: string, dtype: string, value: Value)
      requires Valid()
      modifies this
      ensures Valid()
      ensures columns == old(columns) + [name] && dtypes == old(dtypes) + [dtype]
      ensures |rows| == |old(rows)| && forall i :: 0 <= i < |rows| ==> rows[i] == old(rows[i]) + [value]
    {
      columns := columns + [name];
      dtypes := dtypes + [dtype];
      var before := rows;
      rows := seq(|before|, i requires 0 <= i < |before| => before[i] + [value]);
    }
  }

  // ---------------------------------------------------------------------------
  // Pure rules of df_to_db and remove_duplicates

  /** The name of the timestamp column: the given one, or "CrawlDate" when it is empty. */
  function TimestampColumn(crawldateColumn: string): (c: string)
    ensures crawldateColumn != "" ==> c == crawldateColumn
    ensures crawldateColumn == "" ==> c == "CrawlDate"
  {
    if crawldateColumn != "" then crawldateColumn else "CrawlDate"
  }

  /**
   * `int(math.floor(2100 / n)) - 1`: rows per INSERT so that rows times
   * columns stays under SQL Server's 2100 parameters per statement.
   */
  function ChunkSize(n: nat): (chunk: int)
    requires n > 0
    ensures chunk * n < 2100
    ensures 2100 < (chunk + 2) * n
    ensures chunk >= 1 <==> n <= 1050
  {
    2100 / n - 1
  }

  /** The PARTITION BY columns: the table's, minus value columns and the literal "CrawlDate". */
  function PartitionColumns(tableColumns: seq<string>, valueColumns: seq<string>): (r: seq<string>)
    ensures Subsequence(r, tableColumns)
    ensures forall c :: c in r <==> c in tableColumns && c !in valueColumns && c != "CrawlDate"
  {
    Filter(tableColumns, c => c !in valueColumns && c != "CrawlDate")
  }

  function SortOrder(replace: bool): string
  {
    if replace then "Desc" else "Asc"
  }

  /**
   * The de-duplication statement: per partition, every row but the first in
   * `[crawldate]` order is deleted, so the newest row survives iff `replace`.
   */
  function DedupStatement(table: string, schema: string, replace: bool, valueColumns: seq<string>,
                          tableColumns: seq<string>, dbName: string, crawldateColumn: string): (r: Result<string, LoadError>)
    ensures r.Failure? <==> |tableColumns| <= |valueColumns|
    ensures r.Failure? ==> r.error == AllValueColumns
  {
    if |tableColumns| <= |valueColumns| then Failure(AllValueColumns)
    else Success(DedupText(BracketList(PartitionColumns(tableColumns, valueColumns)), crawldateColumn,
                           SortOrder(replace), dbName, schema, table))
  }

  /** The opening of the windowed delete, up to its partition list. */
  const DedupOpen: string := "BEGIN WITH CTE AS (SELECT *, ROW_NUMBER() OVER (PARTITION BY "

  /** The close of the windowed delete: the table it reads and the deletion of every row but the first. */
  function DedupTarget(dbName: string, schema: string, table: string): string
  {
    " AS RN FROM [" + dbName + "].[" + schema + "].[" + table + "]) DELETE FROM CTE WHERE RN<>1 END COMMIT"
  }

  /** The text of the windowed delete, given its partition list and sort direction. */
  function DedupText(partition: string, crawldateColumn: string, order: string,
                     dbName: string, schema: string, table: string): string
  {
    DedupOpen + partition + " order by [" + crawldateColumn + "] " + order + ")" + DedupTarget(dbName, schema, table)
  }

  /** Where each part of the windowed delete sits. */
  lemma DedupLayout(partition: string, crawldateColumn: string, order: string, target: string)
    ensures var s := DedupOpen + partition + " order by [" + crawldateColumn + "] " + order + ")" + target;
            var k := |DedupOpen| + |partition|;
            var o := k + 13 + |crawldateColumn|;
            && |s| == o + |order| + 1 + |target|
            && s[..|DedupOpen|] == DedupOpen
            && s[|DedupOpen|..k] == partition
            && s[k..k + 11] == " order by ["
            && s[k + 11..o - 2] == crawldateColumn
            && s[o - 2..o] == "] "
            && s[o..o + |order| + 1] == order + ")"
            && s[|s| - |target|..] == target
  {
  }

  /** The windowed delete read part by part, its sort direction given by `replace`. */
  lemma DedupTextParts(partition: string, crawldateColumn: string, replace: bool,
                       dbName: string, schema: string, table: string)
    ensures var s := DedupText(partition, crawldateColumn, SortOrder(replace), dbName, schema, table);
            var k := |DedupOpen| + |partition|;
            var o := k + 13 + |crawldateColumn|;
            var target := DedupTarget(dbName, schema, table);
            && |s| >= o + 4 + |target|
            && s[..|DedupOpen|] == DedupOpen
            && s[|DedupOpen|..k] == partition
            && s[k..k + 11] == " order by ["
            && s[k + 11..o - 2] == crawldateColumn
            && s[o - 2..o] == "] "
            && (s[o..o + 4] == "Desc" <==> replace)
            && s[|s| - |target|..] == target
  {
    var order := SortOrder(replace);
    var target := DedupTarget(dbName, schema, table);
    DedupLayout(partition, crawldateColumn, order, target);
    var s := DedupOpen + partition + " order by [" + crawldateColumn + "] " + order + ")" + target;
    var o := |DedupOpen| + |partition| + 13 + |crawldateColumn|;
    if replace {
      assert s[o..o + 5] == "Desc)";
      assert s[o..o + 4] == s[o..o + 5][..4];
    } else {
      assert s[o..o + 4] == "Asc)";
    }
  }

  /**
   * The statement, read part by part: PARTITION BY the bracketed partition
   * columns, ORDER BY the given timestamp column, descending exactly when
   * `replace` is set (so the newest row is the one kept), over the named
   * table. The partition list reads back as one `[c]` per partition column.
   */
  lemma DedupStatementParts(table: string, schema: string, replace: bool, valueColumns: seq<string>,
                            tableColumns: seq<string>, dbName: string, crawldateColumn: string)
    requires |tableColumns| > |valueColumns|
    ensures var r := DedupStatement(table, schema, replace, valueColumns, tableColumns, dbName, crawldateColumn);
            var partition := PartitionColumns(tableColumns, valueColumns);
            var list := BracketList(partition);
            var k := |DedupOpen| + |list|;
            var o := k + 13 + |crawldateColumn|;
            var target := DedupTarget(dbName, schema, table);
            && r.Success?
            && |r.value| >= o + 4 + |target|
            && r.value[..|DedupOpen|] == DedupOpen
            && r.value[|DedupOpen|..k] == list
            && r.value[k..k + 11] == " order by ["
            && r.value[k + 11..o - 2] == crawldateColumn
            && r.value[o - 2..o] == "] "
            && (r.value[o..o + 4] == "Desc" <==> replace)
            && r.value[|r.value| - |target|..] == target
            && (partition != [] && (forall i :: 0 <= i < |tableColumns| ==> ',' !in tableColumns[i]) ==>
                  Split(r.value[|DedupOpen|..k], ", ") == Map(partition, Bracket))
  {
    var partition := PartitionColumns(tableColumns, valueColumns);
    var list := BracketList(partition);
    DedupTextParts(list, crawldateColumn, replace, dbName, schema, table);
    assert DedupStatement(table, schema, replace, valueColumns, tableColumns, dbName, crawldateColumn)
        == Success(DedupText(list, crawldateColumn, SortOrder(replace), dbName, schema, table));
    if partition != [] && (forall i :: 0 <= i < |tableColumns| ==> ',' !in tableColumns[i]) {
      PartitionListSplits(tableColumns, valueColumns);
    }
  }

  /** The statement `remove_duplicates` builds during a load, from the table's columns at that point. */
  function Dedup(req: Request, db: Db): Result<string, LoadError>
  {
    DedupStatement(req.table, req.schema, req.replace, req.valueColumns, db.columnsAtDedup, db.dbName, req.crawldateColumn)
  }

  /** `col_string` after the loop: `"[c], "` for each column kept, in order. */
  function Listed(cols: seq<string>): string
    decreases |cols|
  {
    if cols == [] then "" else Listed(cols[..|cols| - 1]) + "[" + cols[|cols| - 1] + "], "
  }

  /** One more kept column adds its `"[c], "` at the end. */
  lemma ListedSnoc(cols: seq<string>, c: string)
    ensures Listed(cols + [c]) == Listed(cols) + "[" + c + "], "
  {
    assert (cols + [c])[..|cols|] == cols;
  }

  /** A column is appended to the partition list exactly when it is neither a value column nor "CrawlDate". */
  lemma PartitionSnoc(cols: seq<string>, valueColumns: seq<string>, c: string)
    ensures PartitionColumns(cols + [c], valueColumns)
            == PartitionColumns(cols, valueColumns) + (if c !in valueColumns && c != "CrawlDate" then [c] else [])
  {
    FilterSnoc(cols, c, c => c !in valueColumns && c != "CrawlDate");
  }

  /** Python's `s[:-2]`. */
  function DropLastTwo(s: string): (r: string)
    ensures |s| >= 2 ==> r == s[..|s| - 2]
    ensures |s| < 2 ==> r == ""
  {
    if |s| >= 2 then s[..|s| - 2] else ""
  }

  /** The accumulated list is the bracketed list followed by one trailing ", ". */
  lemma {:induction false} ListedIsBracketList(cols: seq<string>)
    requires |cols| > 0
    ensures Listed(cols) == BracketList(cols) + ", "
    decreases |cols|
  {
    var init, last := cols[..|cols| - 1], cols[|cols| - 1];
    if |init| == 0 {
      assert cols == [last];
    } else {
      ListedIsBracketList(init);
      assert cols == init + [last];
      MapSnoc(init, last, Bracket);
      JoinSnoc(Map(init, Bracket), Bracket(last), ", ");
    }
  }

  /** `col_string[:-2]` is exactly the ", "-joined bracketed list, also when nothing was listed. */
  lemma ChoppedListed(cols: seq<string>)
    ensures DropLastTwo(Listed(cols)) == BracketList(cols)
  {
    if |cols| > 0 {
      ListedIsBracketList(cols);
      assert (BracketList(cols) + ", ")[..|BracketList(cols)|] == BracketList(cols);
    }
  }

  /**
   * The exclusion from PARTITION BY uses the literal "CrawlDate", whatever
   * timestamp column the caller names: a custom timestamp column is
   * partitioned on, and a column called "CrawlDate" never is.
   */
  lemma PartitionIgnoresTimestampParameter(tableColumns: seq<string>, valueColumns: seq<string>, crawldateColumn: string)
    requires crawldateColumn in tableColumns && crawldateColumn !in valueColumns && crawldateColumn != "CrawlDate"
    ensures crawldateColumn in PartitionColumns(tableColumns, valueColumns)
    ensures "CrawlDate" !in PartitionColumns(tableColumns, valueColumns)
  {
  }

  /**
   * The guard counts columns, not the ones left to partition on: a table
   * whose every column is a value column or "CrawlDate" passes it whenever it
   * has more columns than there are value columns, and its statement then
   * partitions by nothing (`PARTITION BY  order by [...]`).
   */
  lemma GuardAllowsEmptyPartition(table: string, schema: string, replace: bool, valueColumns: seq<string>,
                                  tableColumns: seq<string>, dbName: string, crawldateColumn: string)
    requires |tableColumns| > |valueColumns|
    requires forall i :: 0 <= i < |tableColumns| ==> tableColumns[i] in valueColumns || tableColumns[i] == "CrawlDate"
    ensures PartitionColumns(tableColumns, valueColumns) == []
    ensures var r := DedupStatement(table, schema, replace, valueColumns, tableColumns, dbName, crawldateColumn);
            r.Success? && |r.value| >= |DedupOpen| + 11 && r.value[..|DedupOpen| + 11] == DedupOpen + " order by ["
  {
    FilterNone(tableColumns, c => c !in valueColumns && c != "CrawlDate");
    assert BracketList([]) == "";
    DedupStatementParts(table, schema, replace, valueColumns, tableColumns, dbName, crawldateColumn);
    var s := DedupStatement(table, schema, replace, valueColumns, tableColumns, dbName, crawldateColumn).value;
    assert s[..|DedupOpen| + 11] == s[..|DedupOpen|] + s[|DedupOpen|..|DedupOpen| + 11];
  }

  /** Reading the PARTITION BY list back gives one `[c]` per partition column, in table order. */
  lemma PartitionListSplits(tableColumns: seq<string>, valueColumns: seq<string>)
    requires |PartitionColumns(tableColumns, valueColumns)| > 0
    requires forall i :: 0 <= i < |tableColumns| ==> ',' !in tableColumns[i]
    ensures Split(BracketList(PartitionColumns(tableColumns, valueColumns)), ", ")
            == Map(PartitionColumns(tableColumns, valueColumns), Bracket)
  {
    var p := PartitionColumns(tableColumns, valueColumns);
    forall i | 0 <= i < |p| ensures ',' !in p[i] {
      assert p[i] in tableColumns;
    }
    BracketListSplits(p);
  }

  /** `"ALTER TABLE {schema}.{table} ADD [{col}] {type}"`. */
  function AlterStatement(schema: string, table: string, column: string, t: SqlType): string
  {
    "ALTER TABLE " + schema + "." + table + " ADD [" + column + "] " + Render(t)
  }

  /** The positions of the frame's columns that the table lacks, in frame order. */
  function NewColumnPositions(columns: seq<string>, tableColumns: seq<string>): (r: seq<nat>)
    ensures forall k :: 0 <= k < |r| ==> r[k] < |columns| && columns[r[k]] !in tableColumns
    ensures forall k, l :: 0 <= k < l < |r| ==> r[k] < r[l]
    decreases |columns|
  {
    if columns == [] then []
    else
      var n := |columns| - 1;
      var init := NewColumnPositions(columns[..n], tableColumns);
      if columns[n] !in tableColumns then init + [n] else init
  }

  /** Every position of a column the table lacks is listed. */
  lemma {:induction false} NewColumnPositionsComplete(columns: seq<string>, tableColumns: seq<string>, i: nat)
    requires i < |columns| && columns[i] !in tableColumns
    ensures i in NewColumnPositions(columns, tableColumns)
    decreases |columns|
  {
    var n := |columns| - 1;
    if i < n {
      assert columns[..n][i] == columns[i];
      NewColumnPositionsComplete(columns[..n], tableColumns, i);
    }
  }

  /** The summary line of a load, with the new columns when there are any. */
  function LoadSummary(table: string, before: int, after: int, added: seq<string>): string
  {
    var text := IntToString(after - before) + " rows added to: " + table + ". Before: " + IntToString(before)
                + " rows, after: " + IntToString(after) + " rows.";
    if added != [] then text + " Also added following new columns: " + Join(added, " ,") else text
  }


  /** The dtype of the column `df_to_db` fills with `pandas.Timestamp.now()`. */
  const TimestampDtype: string := "datetime64[ns]"

  /** The dtypes pandas gives the columns of a frame built from `rows`. */
  function FrameDtypes(columns: seq<string>, rows: seq<seq<Value>>): (r: seq<string>)
    requires Rectangular(rows, |columns|)
    ensures |r| == |columns|
  {
    seq(|columns|, j requires 0 <= j < |columns| => InferDtype(ColumnAt(rows, j)))
  }

  /** The frame's columns once `df_to_db` has made sure of its timestamp column. */
  function StampedColumns(columns: seq<string>, crawldateColumn: string): (r: seq<string>)
    ensures TimestampColumn(crawldateColumn) in r
    ensures |r| > 0 && |columns| <= |r| && r[..|columns|] == columns
  {
    if TimestampColumn(crawldateColumn) in columns then columns else columns + [TimestampColumn(crawldateColumn)]
  }

  /** The dtypes that go with `StampedColumns`. */
  function StampedDtypes(columns: seq<string>, dtypes: seq<string>, crawldateColumn: string): (r: seq<string>)
    requires |dtypes| == |columns|
    ensures |r| == |StampedColumns(columns, crawldateColumn)| && r[..|dtypes|] == dtypes
  {
    if TimestampColumn(crawldateColumn) in columns then dtypes else dtypes + [TimestampDtype]
  }

  /** `varchar_cols`: NVARCHAR of `size` for every column whose dtype name contains "object". */
  function VarcharMap(columns: seq<string>, dtypes: seq<string>, size: int): map<string, SqlType>
    requires |columns| == |dtypes|
    decreases |columns|
  {
    if columns == [] then map[]
    else
      var n := |columns| - 1;
      var m := VarcharMap(columns[..n], dtypes[..n], size);
      if IsObject(dtypes[n]) then m[columns[n] := NVarchar(size)] else m
  }

  /** The map has an entry exactly for the text columns, and every entry is NVARCHAR of `size`. */
  lemma {:induction false} VarcharMapEntries(columns: seq<string>, dtypes: seq<string>, size: int)
    requires |columns| == |dtypes|
    ensures forall c :: c in VarcharMap(columns, dtypes, size) <==>
                        exists i :: 0 <= i < |columns| && columns[i] == c && IsObject(dtypes[i])
    ensures forall c :: c in VarcharMap(columns, dtypes, size) ==> VarcharMap(columns, dtypes, size)[c] == NVarchar(size)
    decreases |columns|
  {
    if columns != [] {
      var n := |columns| - 1;
      var init, dinit := columns[..n], dtypes[..n];
      VarcharMapEntries(init, dinit, size);
      forall c
        ensures c in VarcharMap(columns, dtypes, size) <==>
                exists i :: 0 <= i < |columns| && columns[i] == c && IsObject(dtypes[i])
      {
        if c in VarcharMap(init, dinit, size) {
          var i :| 0 <= i < n && init[i] == c && IsObject(dinit[i]);
          assert columns[i] == c && IsObject(dtypes[i]);
        }
        if exists i :: 0 <= i < |columns| && columns[i] == c && IsObject(dtypes[i]) {
          var i :| 0 <= i < |columns| && columns[i] == c && IsObject(dtypes[i]);
          if i < n {
            assert init[i] == c && IsObject(dinit[i]);
          }
        }
      }
    }
  }

  /** `col_list`: the frame's columns that the table lacks, in frame order. */
  function AddedColumns(columns: seq<string>, tableColumns: seq<string>): (r: seq<string>)
    ensures |r| == |NewColumnPositions(columns, tableColumns)|
  {
    var pos := NewColumnPositions(columns, tableColumns);
    seq(|pos|, k requires 0 <= k < |pos| => columns[pos[k]])
  }

  /**
   * The reported columns are exactly the frame's columns missing from the
   * table, each taken from a strictly later position than the one before.
   */
  lemma AddedColumnsExactly(columns: seq<string>, tableColumns: seq<string>)
    ensures forall c :: c in AddedColumns(columns, tableColumns) <==> c in columns && c !in tableColumns
    ensures forall k :: 0 <= k < |AddedColumns(columns, tableColumns)| ==>
              AddedColumns(columns, tableColumns)[k] == columns[NewColumnPositions(columns, tableColumns)[k]]
  {
    var pos := NewColumnPositions(columns, tableColumns);
    var r := AddedColumns(columns, tableColumns);
    forall c | c in columns && c !in tableColumns ensures c in r {
      var i :| 0 <= i < |columns| && columns[i] == c;
      NewColumnPositionsComplete(columns, tableColumns, i);
      var k :| 0 <= k < |pos| && pos[k] == i;
      assert r[k] == c;
    }
  }

  function Max(a: int, b: int): int
  {
    if a >= b then a else b
  }

  /** The guard of `push_data`: there must be more columns, in the table or in the names, than value columns. */
  predicate GuardRefuses(tableColumns: seq<string>, names: seq<string>, valueColumns: seq<string>)
  {
    Max(|tableColumns|, |names|) <= |valueColumns|
  }


  /** The arguments of one `push_data` call other than the data and its column names. */
  datatype Request = Request(
    table: string,
    schema: string,
    valueColumns: seq<string>,
    crawldateColumn: string,
    replace: bool,
    ignoreDuplicatesCheck: bool,
    recipients: Option<string>)

  // ---------------------------------------------------------------------------
  // The shapes push_data accepts

  /** `any(isinstance(i, list) for i in input_data)`. */
  predicate HasNestedList(input: Payload)
  {
    (input.ListInput? || input.OtherIterable?) && exists i :: 0 <= i < |input.items| && input.items[i].Sublist?
  }

  /** A list given as the input or as one of its elements is never written as a `ListV` value. */
  predicate WellFormed(input: Payload)
  {
    && (input.ScalarInput? ==> !input.v.ListV?)
    && ((input.ListInput? || input.OtherIterable?) ==>
          forall i :: 0 <= i < |input.items| ==> input.items[i].Atom? ==> !input.items[i].v.ListV?)
  }

  /**
   * A frame built from an array keeps pandas' integer column labels. Once the
   * string timestamp column joins them, `df.dtypes[i]` (line 249) looks up the
   * label `i` rather than the position, and at the timestamp's position there is
   * no such label. An array with no columns leaves the timestamp's name as the
   * only label, which is read by position.
   */
  predicate IntegerLabelled(input: Payload)
  {
    input.ArrayInput? && input.width > 0
  }

  /** The branch of `push_data` an input takes. */
  datatype Shape = RowPerElement | OneRow | OneColumn | AsGiven | FromArray | RowPerEntry | Unrecognised | Scalar

  /**
   * The dispatch of `push_data`. The nested-list test comes first and applies
   * to every input; it fails on a value that cannot be iterated. A string can
   * be iterated, so it reaches the final branch.
   */
  function Classify(input: Payload, names: seq<string>): (s: Shape)
    requires !input.NoneInput?
    ensures s == RowPerElement <==> HasNestedList(input)
    ensures s == OneRow <==> !HasNestedList(input) && input.ListInput? && |names| == |input.items|
    ensures s == OneColumn <==> !HasNestedList(input) && input.ListInput? && |names| != |input.items|
    ensures s == AsGiven <==> input.FrameInput?
    ensures s == FromArray <==> input.ArrayInput?
    ensures s == RowPerEntry <==> input.DictInput?
    ensures s == Unrecognised <==> !HasNestedList(input) && (input.OtherIterable? || (input.ScalarInput? && input.v.StrV?))
    ensures s == Scalar <==> input.ScalarInput? && !input.v.StrV?
  {
    if input.ScalarInput? && !input.v.StrV? then Scalar
    else if HasNestedList(input) then RowPerElement
    else if input.ListInput? then (if |names| == |input.items| then OneRow else OneColumn)
    else if input.FrameInput? then AsGiven
    else if input.ArrayInput? then FromArray
    else if input.DictInput? then RowPerEntry
    else Unrecognised
  }

  /** The widest of some rows. */
  function MaxWidth(rows: seq<seq<Value>>): (w: nat)
    ensures forall i :: 0 <= i < |rows| ==> |rows[i]| <= w
    ensures |rows| > 0 ==> exists i :: 0 <= i < |rows| && |rows[i]| == w
    ensures |rows| == 0 ==> w == 0
    decreases |rows|
  {
    if rows == [] then 0
    else
      var n := |rows| - 1;
      var w := MaxWidth(rows[..n]);
      assert forall i :: 0 <= i < n ==> rows[..n][i] == rows[i];
      if |rows[n]| > w then |rows[n]| else w
  }

  /** A short row filled up with missing values, as pandas does with ragged lists. */
  function Pad(row: seq<Value>, width: nat): (r: seq<Value>)
    ensures |row| <= width ==> |r| == width && r[..|row|] == row
    ensures |row| <= width ==> forall j :: |row| <= j < width ==> r[j] == NullV
  {
    if |row| >= width then row else row + seq(width - |row|, _ => NullV)
  }

  /** The column names `pd.DataFrame` gives a frame built without names: 0, 1, 2, ... */
  function PositionalNames(width: nat): (r: seq<string>)
    ensures |r| == width
    ensures forall j, k :: 0 <= j < k < width ==> r[j] != r[k]
  {
    var r := seq(width, j requires 0 <= j < width => NatToString(j));
    assert forall j, k :: 0 <= j < k < width ==> r[j] != r[k] by {
      forall j, k | 0 <= j < k < width ensures r[j] != r[k] {
        if r[j] == r[k] {
          NatToStringInjective(j, k);
        }
      }
    }
    r
  }

  /**
   * The column names and rows of the frame `push_data` builds in each of its
   * building branches, or the error pandas raises when the names do not fit.
   */
  function FrameArgs(input: Payload, names: seq<string>): (r: Result<(seq<string>, seq<seq<Value>>), LoadError>)
    requires input.ListInput? || input.ArrayInput? || input.DictInput? || HasNestedList(input)
    requires input.ArrayInput? ==> Rectangular(input.cells, input.width)
    ensures r.Success? ==> Rectangular(r.value.1, |r.value.0|)
    ensures r.Failure? ==> r.error == ShapeMismatch || (r.error == RowNotSized && HasNestedList(input))
    // a nested list: one row per element
    ensures HasNestedList(input) && r.Success? ==> r.value.0 == names && |r.value.1| == |input.items|
    ensures HasNestedList(input) && (forall i :: 0 <= i < |input.items| ==> input.items[i].Sublist? && |input.items[i].vs| == |names|) ==>
              r.Success? && forall i :: 0 <= i < |input.items| ==> r.value.1[i] == input.items[i].vs
    // a flat list as long as the names: exactly one row, the list itself
    ensures !HasNestedList(input) && input.ListInput? && |names| == |input.items| ==>
              r.Success? && r.value.0 == names && |r.value.1| == 1 &&
              forall j :: 0 <= j < |input.items| ==> r.value.1[0][j] == input.items[j].v
    // any other flat list: one row per element
    ensures !HasNestedList(input) && input.ListInput? && |names| != |input.items| ==>
              (r.Success? <==> |input.items| == 0 || |names| == 1) &&
              (r.Success? ==> r.value.0 == names && |r.value.1| == |input.items| &&
                              forall i :: 0 <= i < |input.items| ==> r.value.1[i] == [input.items[i].v])
    // an array keeps its rows; pandas labels its columns 0, 1, 2, ...
    ensures !HasNestedList(input) && input.ArrayInput? ==>
              r == Success((PositionalNames(input.width), input.cells))
    // a dict: one (key, value) row per entry
    ensures !HasNestedList(input) && input.DictInput? ==>
              (r.Success? <==> |input.entries| == 0 || |names| == 2) &&
              (r.Success? ==> r.value.0 == names && |r.value.1| == |input.entries| &&
                              forall i :: 0 <= i < |input.entries| ==> r.value.1[i] == [input.entries[i].0, input.entries[i].1])
  {
    if HasNestedList(input) then NestedFrame(input.items, names)
    else if input.ListInput? then FlatListFrame(input.items, names)
    else if input.ArrayInput? then Success((PositionalNames(input.width), input.cells))
    else DictFrame(input.entries, names)
  }

  /** `len()` and `list()` take a list or a string element, and no other value. */
  predicate Sized(item: Item)
  {
    item.Sublist? || item.v.StrV?
  }

  /** The row `list()` reads from one element of a nested list: a list as it is, a string character by character. */
  function RowOf(item: Item): (r: seq<Value>)
    requires Sized(item)
    ensures item.Sublist? ==> r == item.vs
    ensures item.Atom? ==> |r| == |item.v.s| && forall j :: 0 <= j < |r| ==> r[j] == StrV([item.v.s[j]])
  {
    if item.Sublist? then item.vs else seq(|item.v.s|, j requires 0 <= j < |item.v.s| => StrV([item.v.s[j]]))
  }

  /** An element kept whole in one cell: a list becomes a list-valued cell. */
  function Cell(item: Item): Value
  {
    if item.Sublist? then ListV(item.vs) else item.v
  }

  /**
   * A list holding a nested list (line 129). pandas looks only at the first
   * element. When it is a list, every element is read as a row with `len` and
   * `list`, padded with NULL to the longest, and the widest row must match the
   * names. When it is a plain value, the elements fill one object column as
   * they are.
   */
  function NestedFrame(items: seq<Item>, names: seq<string>): (r: Result<(seq<string>, seq<seq<Value>>), LoadError>)
    requires exists i :: 0 <= i < |items| && items[i].Sublist?
    ensures r.Success? ==> Rectangular(r.value.1, |r.value.0|) && r.value.0 == names && |r.value.1| == |items|
    ensures r.Failure? ==> r.error == ShapeMismatch || r.error == RowNotSized
    // a plain first element: one column holding the elements
    ensures items[0].Atom? ==>
              (r.Success? <==> |names| == 1) && (r.Failure? ==> r.error == ShapeMismatch) &&
              (r.Success? ==> forall i :: 0 <= i < |items| ==> r.value.1[i] == [Cell(items[i])])
    // a list first: one row per element
    ensures items[0].Sublist? ==>
              (r.Failure? && r.error == RowNotSized <==> exists i :: 0 <= i < |items| && !Sized(items[i]))
    ensures items[0].Sublist? && (forall i :: 0 <= i < |items| ==> Sized(items[i])) ==>
              (r.Success? <==> (forall i :: 0 <= i < |items| ==> |RowOf(items[i])| <= |names|) &&
                               exists i :: 0 <= i < |items| && |RowOf(items[i])| == |names|)
    ensures items[0].Sublist? && r.Success? ==>
              forall i :: 0 <= i < |items| ==>
                Sized(items[i]) && |RowOf(items[i])| <= |names| &&
                r.value.1[i][..|RowOf(items[i])|] == RowOf(items[i]) &&
                forall j :: |RowOf(items[i])| <= j < |names| ==> r.value.1[i][j] == NullV
  {
    if items[0].Atom? then
      if |names| == 1 then Success((names, Map(items, (it: Item) => [Cell(it)]))) else Failure(ShapeMismatch)
    else if exists i :: 0 <= i < |items| && !Sized(items[i]) then Failure(RowNotSized)
    else SizedRowsFrame(items, names)
  }

  /** The list-first case of `NestedFrame`: each element read as a row, padded with NULL to the widest, which must match the names. */
  function SizedRowsFrame(items: seq<Item>, names: seq<string>): (r: Result<(seq<string>, seq<seq<Value>>), LoadError>)
    requires |items| > 0 && forall i :: 0 <= i < |items| ==> Sized(items[i])
    ensures r.Success? ==> Rectangular(r.value.1, |r.value.0|) && r.value.0 == names && |r.value.1| == |items|
    ensures r.Failure? ==> r.error == ShapeMismatch
    ensures r.Success? <==> (forall i :: 0 <= i < |items| ==> |RowOf(items[i])| <= |names|) &&
                            exists i :: 0 <= i < |items| && |RowOf(items[i])| == |names|
    ensures r.Success? ==>
              forall i :: 0 <= i < |items| ==>
                |RowOf(items[i])| <= |names| &&
                r.value.1[i][..|RowOf(items[i])|] == RowOf(items[i]) &&
                forall j :: |RowOf(items[i])| <= j < |names| ==> r.value.1[i][j] == NullV
  {
    var rows := seq(|items|, i requires 0 <= i < |items| => RowOf(items[i]));
    var width := MaxWidth(rows);
    assert forall i :: 0 <= i < |items| ==> rows[i] == RowOf(items[i]) && |rows[i]| <= width;
    if width != |names| then Failure(ShapeMismatch)
    else
      var padded := Map(rows, row => Pad(row, width));
      Success((names, padded))
  }

  /** A flat list: one row when it is as long as the names, otherwise one single-value row per element. */
  function FlatListFrame(items: seq<Item>, names: seq<string>): (r: Result<(seq<string>, seq<seq<Value>>), LoadError>)
    requires forall i :: 0 <= i < |items| ==> items[i].Atom?
    ensures r.Success? ==> Rectangular(r.value.1, |r.value.0|)
    ensures r.Failure? ==> r.error == ShapeMismatch
    ensures |names| == |items| ==>
              r.Success? && r.value.0 == names && |r.value.1| == 1 &&
              forall j :: 0 <= j < |items| ==> r.value.1[0][j] == items[j].v
    ensures |names| != |items| ==>
              (r.Success? <==> |items| == 0 || |names| == 1) &&
              (r.Success? ==> r.value.0 == names && |r.value.1| == |items| &&
                              forall i :: 0 <= i < |items| ==> r.value.1[i] == [items[i].v])
  {
    var values := seq(|items|, i requires 0 <= i < |items| => items[i].v);
    if |names| == |items| then Success((names, [values]))
    else if |items| == 0 then Success((names, []))
    else if |names| == 1 then Success((names, Map(values, v => [v])))
    else Failure(ShapeMismatch)
  }

  /** A dict: one (key, value) row per entry, which needs exactly two names. */
  function DictFrame(entries: seq<(Value, Value)>, names: seq<string>): (r: Result<(seq<string>, seq<seq<Value>>), LoadError>)
    ensures r.Success? ==> Rectangular(r.value.1, |r.value.0|)
    ensures r.Failure? ==> r.error == ShapeMismatch
    ensures r.Success? <==> |entries| == 0 || |names| == 2
    ensures r.Success? ==> r.value.0 == names && |r.value.1| == |entries| &&
                           forall i :: 0 <= i < |entries| ==> r.value.1[i] == [entries[i].0, entries[i].1]
  {
    if |entries| == 0 || |names| == 2 then Success((names, Map(entries, (e: (Value, Value)) => [e.0, e.1])))
    else Failure(ShapeMismatch)
  }

  /** The monitoring row and, when the row count changed, the summary email. */
  function Reported(req: Request, db: Db, added: seq<string>, cleaned: seq<Effect>): (r: seq<Effect>)
    ensures Monitor(db.rowsAfter - db.rowsBefore, true) in r
    ensures forall e :: e in r ==> e in cleaned || e == Monitor(db.rowsAfter - db.rowsBefore, true) ||
                                   e == Email(NewData(req.table, db.rowsBefore, db.rowsAfter, added))
    ensures Email(NewData(req.table, db.rowsBefore, db.rowsAfter, added)) in r <==>
            Email(NewData(req.table, db.rowsBefore, db.rowsAfter, added)) in cleaned ||
            (req.recipients.Some? && db.rowsBefore != db.rowsAfter)
  {
    var monitored := cleaned + [Monitor(db.rowsAfter - db.rowsBefore, true)];
    if db.rowsBefore != db.rowsAfter then
      monitored + Notify(req.recipients, NewData(req.table, db.rowsBefore, db.rowsAfter, added))
    else monitored
  }

  // ---------------------------------------------------------------------------
  // What one df_to_db call does, across its paths

  /** Only a failed first append sends ALTER TABLE statements and a second append, with no type map. */
  lemma AppendsWithinLimit(m: Method, req: Request, columns: seq<string>, dtypes: seq<string>, db: Db)
    requires |columns| == |dtypes| > 0
    ensures var sent := m.AppendStage(req, columns, dtypes, db);
            sent[0] == Append(ChunkSize(|columns|), Some(VarcharMap(columns, dtypes, m.maxVarchar))) &&
            (forall e :: e in sent && e.Append? ==> e.chunkSize * |columns| < 2100) &&
            (Append(ChunkSize(|columns|), None) in sent <==> !db.appendAccepted) &&
            (db.appendAccepted ==> |sent| == 1) &&
            (!db.appendAccepted ==> |sent| == 2 + |AddedColumns(columns, db.columnsAtRetry)|)
  {
    var sent := m.AppendStage(req, columns, dtypes, db);
    var chunk := ChunkSize(|columns|);
    if !db.appendAccepted {
      var alters := m.AlterEffects(req.schema, req.table, columns, dtypes, db.columnsAtRetry);
      assert sent == [Append(chunk, Some(VarcharMap(columns, dtypes, m.maxVarchar)))] + alters + [Append(chunk, None)];
      assert sent[|sent| - 1] == Append(chunk, None);
      forall e | e in sent && e.Append? ensures e.chunkSize == chunk {
        assert e in [sent[0]] + alters || e == Append(chunk, None);
      }
    }
  }

  /**
   * When both appends fail, the load fails after dropping the schema exactly
   * when this load created it and after recording an unsuccessful run of
   * zero lines; it never records a successful run.
   */
  lemma FailedAddCleansUp(m: Method, req: Request, schemaCreated: bool, columns: seq<string>, dtypes: seq<string>, db: Db,
                          dedup: Result<string, LoadError>)
    requires |columns| == |dtypes| > 0
    requires !db.appendAccepted && !db.retryAccepted
    ensures m.UploadTrace(req, schemaCreated, columns, dtypes, db, dedup).0 == Fail(AddFailed)
    ensures DropSchema(req.schema) in m.UploadTrace(req, schemaCreated, columns, dtypes, db, dedup).1 <==> schemaCreated
    ensures Monitor(0, false) in m.UploadTrace(req, schemaCreated, columns, dtypes, db, dedup).1
    ensures forall e :: e in m.UploadTrace(req, schemaCreated, columns, dtypes, db, dedup).1 && e.Monitor? ==> !e.successful
  {
    var sent := m.AppendStage(req, columns, dtypes, db);
    var dropped := if schemaCreated then sent + [DropSchema(req.schema)] else sent;
    var effects := m.UploadTrace(req, schemaCreated, columns, dtypes, db, dedup).1;
    var mail := Notify(req.recipients, AddFailure(req.schema, req.table, db.failureText));
    assert effects == dropped + [Monitor(0, false)] + mail;
    assert forall e :: e in effects ==> e in sent || (e == DropSchema(req.schema) && schemaCreated) || e == Monitor(0, false) || e in mail;
  }

  /**
   * The "New data added" email goes out exactly when the load succeeds, there
   * are recipients and the row count changed; it reports the two counts and
   * the columns this load added.
   */
  lemma NewDataEmailOnlyOnChange(m: Method, req: Request, schemaCreated: bool, columns: seq<string>, dtypes: seq<string>, db: Db,
                                 dedup: Result<string, LoadError>)
    requires |columns| == |dtypes| > 0
    ensures (exists e :: e in m.UploadTrace(req, schemaCreated, columns, dtypes, db, dedup).1 && e.Email? && e.notice.NewData?)
            <==> m.UploadTrace(req, schemaCreated, columns, dtypes, db, dedup).0 == Pass && req.recipients.Some? && db.rowsBefore != db.rowsAfter
    ensures forall e :: e in m.UploadTrace(req, schemaCreated, columns, dtypes, db, dedup).1 && e.Email? && e.notice.NewData? ==>
              e.notice == NewData(req.table, db.rowsBefore, db.rowsAfter,
                                  if db.appendAccepted then [] else AddedColumns(columns, db.columnsAtRetry))
  {
    var sent := m.AppendStage(req, columns, dtypes, db);
    var trace := m.UploadTrace(req, schemaCreated, columns, dtypes, db, dedup);
    if !db.appendAccepted && !db.retryAccepted {
      var dropped := if schemaCreated then sent + [DropSchema(req.schema)] else sent;
      var mail := Notify(req.recipients, AddFailure(req.schema, req.table, db.failureText));
      assert trace.1 == dropped + [Monitor(0, false)] + mail;
      assert forall e :: e in trace.1 ==> e in sent || e == DropSchema(req.schema) || e == Monitor(0, false) || e in mail;
    } else if trace.0 == Pass {
      var cleaned := if req.ignoreDuplicatesCheck then sent else sent + [Execute(dedup.value)];
      var added := if db.appendAccepted then [] else AddedColumns(columns, db.columnsAtRetry);
      var monitored := cleaned + [Monitor(db.rowsAfter - db.rowsBefore, true)];
      assert forall e :: e in monitored ==> !e.Email?;
      assert trace.1 == Reported(req, db, added, cleaned);
      if db.rowsBefore != db.rowsAfter && req.recipients.Some? {
        assert trace.1[|trace.1| - 1] == Email(NewData(req.table, db.rowsBefore, db.rowsAfter, added));
      }
    }
  }

  /**
   * A load succeeds exactly when one of the appends is accepted and the
   * de-duplication, when it runs, has a statement to run that the server
   * accepts. A refused statement fails the load with no monitoring row and no
   * email, since `remove_duplicates` raises outside any handler.
   */
  lemma UploadSucceeds(m: Method, req: Request, schemaCreated: bool, columns: seq<string>, dtypes: seq<string>, db: Db,
                       dedup: Result<string, LoadError>)
    requires |columns| == |dtypes| > 0
    ensures m.UploadTrace(req, schemaCreated, columns, dtypes, db, dedup).0 == Pass <==>
            (db.appendAccepted || db.retryAccepted) &&
            (req.ignoreDuplicatesCheck || (dedup.Success? && db.dedupAccepted))
    ensures var trace := m.UploadTrace(req, schemaCreated, columns, dtypes, db, dedup);
            (db.appendAccepted || db.retryAccepted) && !req.ignoreDuplicatesCheck && dedup.Success? && !db.dedupAccepted ==>
              trace.0 == Fail(DedupRejected) && trace.1[|trace.1| - 1] == Execute(dedup.value) &&
              forall e :: e in trace.1 ==> !e.Monitor? && !e.Email?
  {
    if dedup.Success? {
      var sent := m.AppendStage(req, columns, dtypes, db);
      assert forall e :: e in sent + [Execute(dedup.value)] ==> e in sent || e == Execute(dedup.value);
    }
  }

  /** A successful load keeps the schema and records a successful run of the lines it added. */
  lemma SuccessKeepsSchema(m: Method, req: Request, schemaCreated: bool, columns: seq<string>, dtypes: seq<string>, db: Db,
                           dedup: Result<string, LoadError>)
    requires |columns| == |dtypes| > 0
    requires m.UploadTrace(req, schemaCreated, columns, dtypes, db, dedup).0 == Pass
    ensures DropSchema(req.schema) !in m.UploadTrace(req, schemaCreated, columns, dtypes, db, dedup).1
    ensures Monitor(db.rowsAfter - db.rowsBefore, true) in m.UploadTrace(req, schemaCreated, columns, dtypes, db, dedup).1
  {
    var sent := m.AppendStage(req, columns, dtypes, db);
    var cleaned := if req.ignoreDuplicatesCheck then sent else sent + [Execute(dedup.value)];
    var added := if db.appendAccepted then [] else AddedColumns(columns, db.columnsAtRetry);
    assert m.UploadTrace(req, schemaCreated, columns, dtypes, db, dedup).1 == Reported(req, db, added, cleaned);
    assert DropSchema(req.schema) !in sent;
    assert DropSchema(req.schema) !in cleaned;
  }

  // ---------------------------------------------------------------------------
  // The loader object

  /** The rule `format_string` draws above and below its text: 55 dashes. */
  const Rule: string := Dashes(55)

  function Dashes(n: nat): (r: string)
    ensures |r| == n && forall i :: 0 <= i < n ==> r[i] == '-'
  {
    if n == 0 then "" else Dashes(n - 1) + "-"
  }

  /** A line framed above and below by the same rule splits back into its lines. */
  lemma FramedLines(rule: string, text: string)
    requires SafePart(rule, "\n") && SafePart(text, "\n")
    ensures Split(rule + ("\n" + text + "\n") + rule + "\n", "\n") == [rule, text, rule, ""]
  {
    var parts := [rule, text, rule, ""];
    assert Join(parts, "\n") == rule + ("\n" + text + "\n") + rule + "\n" by {
      assert parts[1..][1..][1..] == [""];
      assert parts[1..][1..] == [rule, ""];
      assert parts[1..] == [text, rule, ""];
      assert Join([rule, ""], "\n") == rule + "\n";
      assert Join([text, rule, ""], "\n") == text + "\n" + (rule + "\n");
    }
    SplitJoin(parts, "\n");
  }

  /** A formatted single line reads back, line by line, as rule, text, rule and an empty tail. */
  lemma FormatStringLines(m: Method, text: string)
    requires |text| > 0 && '\n' !in text
    ensures Split(m.FormatString(text), "\n") == [Rule, text, Rule, ""]
  {
    assert '\n' !in Rule by {
      assert forall i :: 0 <= i < |Rule| ==> Rule[i] == '-';
    }
    MissingChar(Rule, "\n", '\n');
    MissingChar(text, "\n", '\n');
    FramedLines(Rule, text);
  }

  class Method {
    var maxVarchar: int

    /** The bound `set_max_varchar` keeps: at most 1023 and never 0. */
    ghost predicate Valid()
      reads this
    {
      maxVarchar <= 1023 && maxVarchar != 0
    }

    /** The class attribute: 255 before `__init__` sets the size. */
    constructor ()
      ensures maxVarchar == 255 && Valid()
    {
      maxVarchar := 255;
    }

    /** `Method(varchar_size)`: construction fails exactly when `set_max_varchar` refuses the size. */
    static method Create(varcharSize: int) returns (r: Result<Method, LoadError>)
      ensures r.Success? <==> varcharSize <= 1023 && varcharSize != 0
      ensures r.Success? ==> fresh(r.value) && r.value.maxVarchar == varcharSize && r.value.Valid()
      ensures r.Failure? ==> r.error == (if varcharSize > 1023 then VarcharTooBig else VarcharZero)
    {
      var m := new Method();
      var outcome := m.SetMaxVarchar(varcharSize);
      if outcome.Fail? {
        return Failure(outcome.error);
      }
      return Success(m);
    }

    /** `set_max_varchar`: refuses sizes above 1023 and 0, and takes any other size as it is. */
    method SetMaxVarchar(varcharSize: int) returns (r: Outcome<LoadError>)
      modifies this
      ensures varcharSize > 1023 ==> r == Fail(VarcharTooBig) && maxVarchar == old(maxVarchar)
      ensures varcharSize == 0 ==> r == Fail(VarcharZero) && maxVarchar == old(maxVarchar)
      ensures varcharSize <= 1023 && varcharSize != 0 ==> r == Pass && maxVarchar == varcharSize
      ensures old(Valid()) ==> Valid()
    {
      if varcharSize > 1023 {
        return Fail(VarcharTooBig);
      } else if varcharSize == 0 {
        return Fail(VarcharZero);
      } else {
        maxVarchar := varcharSize;
        return Pass;
      }
    }

    /**
     * `get_dtype`: the first of "object", "datetime", "float", "int" found in
     * the dtype name decides; text and unrecognised dtypes both get
     * NVARCHAR of the current `max_varchar`.
     */
    function GetDtype(pandasType: string): (t: SqlType)
      reads this
      ensures t.NVarchar? <==> IsObject(pandasType) || Matches(pandasType) == 0
      ensures t.NVarchar? ==> t.length == maxVarchar
      ensures Valid() && t.NVarchar? ==> t.length <= 1023 && t.length != 0
      ensures t == DateTime <==> !IsObject(pandasType) && IsDatetime(pandasType)
      ensures t.Float? <==> !IsObject(pandasType) && !IsDatetime(pandasType) && IsFloat(pandasType)
      ensures t.Float? ==> t == Float(None)
      ensures t == Int <==> Matches(pandasType) == 1 && IsInt(pandasType)
    {
      if IsObject(pandasType) then NVarchar(maxVarchar)
      else if IsDatetime(pandasType) then DateTime
      else if IsFloat(pandasType) then Float(None)
      else if IsInt(pandasType) then Int
      else NVarchar(maxVarchar)
    }

    /** `format_string`: the text between two rules, each on its own line. */
    function FormatString(text: string): (r: string)
      ensures |r| == |text| + 2 * |Rule| + 3
      ensures r[..|Rule|] == Rule && r[|Rule| + 2 + |text|..|r| - 1] == Rule
      ensures r[|Rule|] == '\n' && r[|Rule| + 1 + |text|] == '\n' && r[|r| - 1] == '\n'
      ensures r[|Rule| + 1..|Rule| + 1 + |text|] == text
    {
      var framed := Rule + ("\n" + text + "\n");
      var r := framed + Rule + "\n";
      assert framed[..|Rule|] == Rule;
      assert r[..|Rule|] == Rule;
      assert r[|framed|..|framed| + |Rule|] == Rule;
      r
    }

    /** `remove_duplicates` up to the execution: the statement, built column by column. */
    method RemoveDuplicates(table: string, schema: string, replace: bool, valueColumns: seq<string>,
                            tableColumns: seq<string>, dbName: string, crawldateColumn: string)
      returns (r: Result<string, LoadError>)
      ensures r == DedupStatement(table, schema, replace, valueColumns, tableColumns, dbName, crawldateColumn)
    {
      var sqlVal := if replace then "Desc" else "Asc";
      if |tableColumns| <= |valueColumns| {
        return Failure(AllValueColumns);
      }
      var colString := PartitionList(tableColumns, valueColumns);
      ChoppedListed(PartitionColumns(tableColumns, valueColumns));
      var params := DedupText(DropLastTwo(colString), crawldateColumn, sqlVal, dbName, schema, table);
      return Success(params);
    }

    /** The loop of `remove_duplicates` that collects `"[c], "` for each column to partition on. */
    static method PartitionList(tableColumns: seq<string>, valueColumns: seq<string>) returns (colString: string)
      ensures colString == Listed(PartitionColumns(tableColumns, valueColumns))
    {
      colString := "";
      for i := 0 to |tableColumns|
        invariant colString == Listed(PartitionColumns(tableColumns[..i], valueColumns))
      {
        var c := tableColumns[i];
        assert tableColumns[..i + 1] == tableColumns[..i] + [c];
        PartitionSnoc(tableColumns[..i], valueColumns, c);
        if c in valueColumns || c == "CrawlDate" {
          continue;
        } else {
          ListedSnoc(PartitionColumns(tableColumns[..i], valueColumns), c);
          colString := colString + "[" + c + "], ";
        }
      }
      assert tableColumns[..|tableColumns|] == tableColumns;
    }

    /** The loop of `df_to_db` that fills `varchar_cols`. */
    method VarcharColumns(columns: seq<string>, dtypes: seq<string>) returns (varcharCols: map<string, SqlType>)
      requires |columns| == |dtypes|
      ensures varcharCols == VarcharMap(columns, dtypes, maxVarchar)
    {
      varcharCols := map[];
      for i := 0 to |columns|
        invariant varcharCols == VarcharMap(columns[..i], dtypes[..i], maxVarchar)
      {
        assert columns[..i + 1][..i] == columns[..i];
        assert dtypes[..i + 1][..i] == dtypes[..i];
        if IsObject(dtypes[i]) {
          varcharCols := varcharCols[columns[i] := NVarchar(maxVarchar)];
        }
      }
      assert columns[..|columns|] == columns && dtypes[..|dtypes|] == dtypes;
    }

    /** One ALTER TABLE per column the table lacks, in frame order, typed by `get_dtype`. */
    function AlterEffects(schema: string, table: string, columns: seq<string>, dtypes: seq<string>,
                          tableColumns: seq<string>): (r: seq<Effect>)
      reads this
      requires |columns| == |dtypes|
      ensures |r| == |AddedColumns(columns, tableColumns)|
      ensures forall e :: e in r ==> e.Execute?
    {
      var pos := NewColumnPositions(columns, tableColumns);
      seq(|pos|, k requires 0 <= k < |pos| reads this =>
        Execute(AlterStatement(schema, table, columns[pos[k]], GetDtype(dtypes[pos[k]]))))
    }

    /**
     * The loop of `df_to_db`'s retry: every frame column missing from the
     * table is reported and gets its ALTER TABLE statement, one by one.
     */
    method NewColumns(schema: string, table: string, columns: seq<string>, dtypes: seq<string>, tableColumns: seq<string>)
      returns (added: seq<string>, alters: seq<Effect>)
      requires |columns| == |dtypes|
      ensures added == AddedColumns(columns, tableColumns)
      ensures alters == AlterEffects(schema, table, columns, dtypes, tableColumns)
      ensures |alters| == |added|
      ensures forall k :: 0 <= k < |added| ==>
                added[k] !in tableColumns &&
                alters[k] == Execute(AlterStatement(schema, table, added[k], GetDtype(dtypes[NewColumnPositions(columns, tableColumns)[k]])))
    {
      added, alters := [], [];
      ghost var pos: seq<nat> := [];
      for i := 0 to |columns|
        invariant pos == NewColumnPositions(columns[..i], tableColumns)
        invariant |added| == |pos| == |alters|
        invariant forall k :: 0 <= k < |pos| ==>
                    pos[k] < i && added[k] == columns[pos[k]] &&
                    alters[k] == Execute(AlterStatement(schema, table, columns[pos[k]], GetDtype(dtypes[pos[k]])))
      {
        assert columns[..i + 1][..i] == columns[..i];
        if columns[i] !in tableColumns {
          added := added + [columns[i]];
          alters := alters + [Execute(AlterStatement(schema, table, columns[i], GetDtype(dtypes[i])))];
          pos := pos + [i];
        }
      }
      assert columns[..|columns|] == columns;
    }

    /** The appends of `df_to_db`: the first, and when it is refused the ALTERs and the retry. */
    function AppendStage(req: Request, columns: seq<string>, dtypes: seq<string>, db: Db): (r: seq<Effect>)
      reads this
      requires |columns| == |dtypes| > 0
      ensures forall e :: e in r ==> e.Append? || e.Execute?
    {
      var chunk := ChunkSize(|columns|);
      var first := [Append(chunk, Some(VarcharMap(columns, dtypes, maxVarchar)))];
      if db.appendAccepted then first
      else first + AlterEffects(req.schema, req.table, columns, dtypes, db.columnsAtRetry) + [Append(chunk, None)]
    }

    /**
     * What `df_to_db` does once the frame has its timestamp column: the
     * outcome, and every effect in order.
     */
    function UploadTrace(req: Request, schemaCreated: bool, columns: seq<string>, dtypes: seq<string>, db: Db,
                         dedup: Result<string, LoadError>): (Outcome<LoadError>, seq<Effect>)
      reads this
      requires |columns| == |dtypes| > 0
    {
      var sent := AppendStage(req, columns, dtypes, db);
      if !db.appendAccepted && !db.retryAccepted then
        var dropped := if schemaCreated then sent + [DropSchema(req.schema)] else sent;
        (Fail(AddFailed), dropped + [Monitor(0, false)]
                          + Notify(req.recipients, AddFailure(req.schema, req.table, db.failureText)))
      else
        if !req.ignoreDuplicatesCheck && dedup.Failure? then (Fail(dedup.error), sent)
        else if !req.ignoreDuplicatesCheck && !db.dedupAccepted then (Fail(DedupRejected), sent + [Execute(dedup.value)])
        else
          var cleaned := if req.ignoreDuplicatesCheck then sent else sent + [Execute(dedup.value)];
          var added := if db.appendAccepted then [] else AddedColumns(columns, db.columnsAtRetry);
          (Pass, Reported(req, db, added, cleaned))
    }

    /** The timestamp step of `df_to_db`: the column is added, filled with `now`, only when the frame lacks it. */
    static method StampTimestamp(df: Frame, crawldateColumn: string, now: int)
      requires df.Valid()
      modifies df
      ensures df.Valid()
      ensures df.columns == StampedColumns(old(df.columns), crawldateColumn)
      ensures df.dtypes == StampedDtypes(old(df.columns), old(df.dtypes), crawldateColumn)
      ensures TimestampColumn(crawldateColumn) in old(df.columns) ==> df.rows == old(df.rows)
      ensures TimestampColumn(crawldateColumn) !in old(df.columns) ==>
                |df.rows| == |old(df.rows)| && forall i :: 0 <= i < |df.rows| ==> df.rows[i] == old(df.rows[i]) + [TimeV(now)]
    {
      if crawldateColumn != "" {
        if crawldateColumn !in df.columns {
          df.AddColumn(crawldateColumn, TimestampDtype, TimeV(now));
        }
      } else if "CrawlDate" !in df.columns {
        df.AddColumn("CrawlDate", TimestampDtype, TimeV(now));
      }
    }

    /**
     * `df_to_db`: gives the frame its timestamp column when it has none, then
     * uploads it.
     */
    method DfToDb(req: Request, df: Frame, schemaCreated: bool, db: Db, now: int)
      returns (r: Outcome<LoadError>, effects: seq<Effect>)
      requires df.Valid()
      modifies df
      ensures df.Valid()
      ensures df.columns == StampedColumns(old(df.columns), req.crawldateColumn)
      ensures df.dtypes == StampedDtypes(old(df.columns), old(df.dtypes), req.crawldateColumn)
      ensures TimestampColumn(req.crawldateColumn) in old(df.columns) ==> df.rows == old(df.rows)
      ensures TimestampColumn(req.crawldateColumn) !in old(df.columns) ==>
                |df.rows| == |old(df.rows)| && forall i :: 0 <= i < |df.rows| ==> df.rows[i] == old(df.rows[i]) + [TimeV(now)]
      ensures (r, effects) == UploadTrace(req, schemaCreated, df.columns, df.dtypes, db, Dedup(req, db))
    {
      StampTimestamp(df, req.crawldateColumn, now);
      r, effects := UploadFrame(req, df.columns, df.dtypes, schemaCreated, db);
    }

    /**
     * The appends of `df_to_db`: the first, with NVARCHAR for the text
     * columns; when the table refuses it, the missing columns are added and
     * the frame is appended once more.
     */
    method AppendAttempts(req: Request, columns: seq<string>, dtypes: seq<string>, db: Db)
      returns (colList: seq<string>, effects: seq<Effect>)
      requires |columns| == |dtypes| > 0
      ensures effects == AppendStage(req, columns, dtypes, db)
      ensures colList == if db.appendAccepted then [] else AddedColumns(columns, db.columnsAtRetry)
    {
      colList := [];
      var varcharCols := VarcharColumns(columns, dtypes);
      var chunk := 2100 / |columns| - 1;
      effects := [Append(chunk, Some(varcharCols))];
      if !db.appendAccepted {
        var alters;
        colList, alters := NewColumns(req.schema, req.table, columns, dtypes, db.columnsAtRetry);
        effects := effects + alters + [Append(chunk, None)];
      }
    }

    /**
     * The rest of `df_to_db`, on the stamped frame's columns and dtypes: the
     * append, the added columns and retry, the de-duplication, the
     * monitoring row and the report.
     */
    method UploadFrame(req: Request, columns: seq<string>, dtypes: seq<string>, schemaCreated: bool, db: Db)
      returns (r: Outcome<LoadError>, effects: seq<Effect>)
      requires |columns| == |dtypes| > 0
      ensures (r, effects) == UploadTrace(req, schemaCreated, columns, dtypes, db, Dedup(req, db))
    {
      var colList, sent := AppendAttempts(req, columns, dtypes, db);
      effects := sent;
      if !db.appendAccepted && !db.retryAccepted {
        if schemaCreated {
          effects := effects + [DropSchema(req.schema)];
        }
        effects := effects + [Monitor(0, false)];
        effects := effects + Notify(req.recipients, AddFailure(req.schema, req.table, db.failureText));
        return Fail(AddFailed), effects;
      }
      if !req.ignoreDuplicatesCheck {
        var statement := RemoveDuplicates(req.table, req.schema, req.replace, req.valueColumns, db.columnsAtDedup,
                                          db.dbName, req.crawldateColumn);
        if statement.Failure? {
          return Fail(statement.error), effects;
        }
        effects := effects + [Execute(statement.value)];
        if !db.dedupAccepted {
          return Fail(DedupRejected), effects;
        }
      }
      ghost var cleaned := effects;
      var before, after := db.rowsBefore, db.rowsAfter;
      effects := effects + [Monitor(after - before, true)];
      if before != after {
        effects := effects + Notify(req.recipients, NewData(req.table, before, after, colList));
      }
      assert effects == Reported(req, db, colList, cleaned);
      return Pass, effects;
    }

    /**
     * The shape dispatch of `push_data`, after the schema step: each
     * recognised shape becomes a frame for `df_to_db`; anything else drops a
     * just-created schema, emails and fails. `tail` is what follows the
     * schema step.
     */
    method LoadShape(req: Request, input: Payload, names: seq<string>, schemaCreated: bool, db: Db, now: int)
      returns (r: Outcome<LoadError>, tail: seq<Effect>)
      requires !input.NoneInput?
      requires input.FrameInput? ==> input.frame.Valid()
      requires input.ArrayInput? ==> Rectangular(input.cells, input.width)
      requires WellFormed(input)
      modifies if input.FrameInput? then {input.frame} else {}
      ensures Classify(input, names) == Scalar ==> r == Fail(NotIterable) && tail == []
      ensures Classify(input, names) == Unrecognised ==>
                r == Fail(UnrecognisedInput) &&
                tail == (if schemaCreated then [DropSchema(req.schema)] else []) + Notify(req.recipients, UnrecognisedShape(req.schema, req.table))
      ensures Classify(input, names) == AsGiven ==>
                input.frame.Valid() &&
                input.frame.columns == StampedColumns(old(input.frame.columns), req.crawldateColumn) &&
                input.frame.dtypes == StampedDtypes(old(input.frame.columns), old(input.frame.dtypes), req.crawldateColumn) &&
                (r, tail) == UploadTrace(req, schemaCreated, input.frame.columns, input.frame.dtypes, db, Dedup(req, db))
      ensures IntegerLabelled(input) ==> r == Fail(LabelMissing) && tail == []
      ensures Classify(input, names) in {RowPerElement, OneRow, OneColumn, FromArray, RowPerEntry} && !IntegerLabelled(input) ==>
                var args := FrameArgs(input, names);
                (args.Failure? ==> r == Fail(args.error) && tail == []) &&
                (args.Success? ==>
                   var columns, rows := args.value.0, args.value.1;
                   (r, tail) ==
                     UploadTrace(req, schemaCreated, StampedColumns(columns, req.crawldateColumn),
                                 StampedDtypes(columns, FrameDtypes(columns, rows), req.crawldateColumn), db, Dedup(req, db)))
    {
      if input.ScalarInput? && !input.v.StrV? {
        return Fail(NotIterable), [];
      } else if HasNestedList(input) || input.ListInput? || input.ArrayInput? || input.DictInput? {
        var args := FrameArgs(input, names);
        if args.Failure? {
          return Fail(args.error), [];
        }
        if IntegerLabelled(input) {
          return Fail(LabelMissing), [];
        }
        var df := new Frame(args.value.0, args.value.1);
        r, tail := DfToDb(req, df, schemaCreated, db, now);
      } else if input.FrameInput? {
        r, tail := DfToDb(req, input.frame, schemaCreated, db, now);
      } else {
        tail := [];
        if schemaCreated {
          tail := tail + [DropSchema(req.schema)];
        }
        tail := tail + Notify(req.recipients, UnrecognisedShape(req.schema, req.table));
        return Fail(UnrecognisedInput), tail;
      }
    }

    /**
     * `push_data`: refuses a missing input and an all-value-column load
     * before touching the database, creates the schema when it is missing,
     * and turns each recognised shape of input into a frame for `df_to_db`.
     */
    method PushData(req: Request, input: Payload, columnNames: Option<seq<string>>, db: Db, now: int)
      returns (r: Outcome<LoadError>, effects: seq<Effect>)
      requires input.FrameInput? ==> input.frame.Valid()
      requires input.ArrayInput? ==> Rectangular(input.cells, input.width)
      requires WellFormed(input)
      modifies if input.FrameInput? then {input.frame} else {}
      ensures input.FrameInput? && (columnNames.None? || GuardRefuses(db.tableColumns, columnNames.value, req.valueColumns)) ==>
                unchanged(input.frame)
      ensures input.NoneInput? ==>
                r == Fail(InputIsNone) && effects == Notify(req.recipients, InputMissing)
      ensures !input.NoneInput? && columnNames.None? ==>
                r == Fail(ColumnListMissing) && effects == []
      ensures !input.NoneInput? && columnNames.Some? && GuardRefuses(db.tableColumns, columnNames.value, req.valueColumns) ==>
                r == Fail(AllValueColumns) && effects == Notify(req.recipients, AllValue)
      ensures !input.NoneInput? && columnNames.Some? && !GuardRefuses(db.tableColumns, columnNames.value, req.valueColumns) ==>
                var opening := if db.schemaExists then [] else [CreateSchema(req.schema)];
                |opening| <= |effects| && effects[..|opening|] == opening
      ensures !input.NoneInput? && columnNames.Some? && !GuardRefuses(db.tableColumns, columnNames.value, req.valueColumns) ==>
                var opening := if db.schemaExists then [] else [CreateSchema(req.schema)];
                var shape := Classify(input, columnNames.value);
                (shape == Scalar ==> r == Fail(NotIterable) && effects == opening) &&
                (shape == Unrecognised ==>
                   r == Fail(UnrecognisedInput) &&
                   effects == opening + (if db.schemaExists then [] else [DropSchema(req.schema)])
                              + Notify(req.recipients, UnrecognisedShape(req.schema, req.table))) &&
                (shape == AsGiven ==>
                   input.frame.Valid() &&
                   input.frame.columns == StampedColumns(old(input.frame.columns), req.crawldateColumn) &&
                   input.frame.dtypes == StampedDtypes(old(input.frame.columns), old(input.frame.dtypes), req.crawldateColumn) &&
                   (r, effects[|opening|..]) == UploadTrace(req, !db.schemaExists, input.frame.columns, input.frame.dtypes, db, Dedup(req, db)))
      ensures !input.NoneInput? && columnNames.Some? && !GuardRefuses(db.tableColumns, columnNames.value, req.valueColumns) &&
              IntegerLabelled(input) ==>
                r == Fail(LabelMissing) && effects == (if db.schemaExists then [] else [CreateSchema(req.schema)])
      ensures !input.NoneInput? && columnNames.Some? && !GuardRefuses(db.tableColumns, columnNames.value, req.valueColumns) &&
              Classify(input, columnNames.value) in {RowPerElement, OneRow, OneColumn, FromArray, RowPerEntry} &&
              !IntegerLabelled(input) ==>
                var opening := if db.schemaExists then [] else [CreateSchema(req.schema)];
                var args := FrameArgs(input, columnNames.value);
                (args.Failure? ==> r == Fail(args.error) && effects == opening) &&
                (args.Success? ==>
                   var columns, rows := args.value.0, args.value.1;
                   (r, effects[|opening|..]) ==
                     UploadTrace(req, !db.schemaExists, StampedColumns(columns, req.crawldateColumn),
                                 StampedDtypes(columns, FrameDtypes(columns, rows), req.crawldateColumn), db, Dedup(req, db)))
    {
      if input.NoneInput? {
        effects := Notify(req.recipients, InputMissing);
        return Fail(InputIsNone), effects;
      }
      var colList := db.tableColumns;
      if columnNames.None? {
        return Fail(ColumnListMissing), [];
      }
      var names := columnNames.value;
      if Max(|colList|, |names|) <= |req.valueColumns| {
        effects := Notify(req.recipients, AllValue);
        return Fail(AllValueColumns), effects;
      }
      var schemaCreated := false;
      effects := [];
      if !db.schemaExists {
        effects := [CreateSchema(req.schema)];
        schemaCreated := true;
      }
      ghost var opening := effects;
      var tail: seq<Effect>;
      r, tail := LoadShape(req, input, names, schemaCreated, db, now);
      effects := effects + tail;
      assert effects[..|opening|] == opening && effects[|opening|..] == tail;
    }
  }
}
