/**
 * `MySqlConnection` (Modules/connect_to_sql.py): the text of the T-SQL MERGE
 * statement built by `df_sql_upsert`, and the column-type map that
 * `df_to_new_table` hands to pandas. The connection, the temporary-table upload
 * and the execution of the statement are not modelled; the UUID of the
 * temporary table and the primary key of the target table are parameters.
 */
module ConnectToSql {
  import opened Wrappers
  import opened Seqs
  import opened Text
  import opened SqlTypes
  import opened SqlText

  /** `ValueError("skip_inserts and skip_updates cannot both be True")`. */
  datatype UpsertError = BothSkipped

  // ---------------------------------------------------------------------------
  // Delimited identifiers: `"[" + name.replace("]", "]]") + "]"`

  /** `name.replace("]", "]]")`. */
  function EscapeIdentifier(name: string): (r: string)
    ensures forall c :: c != ']' ==> (c in r <==> c in name)
    decreases |name|
  {
    if name == [] then []
    else (if name[0] == ']' then "]]" else [name[0]]) + EscapeIdentifier(name[1..])
  }

  /**
   * Reads the body of a delimited identifier, the text after its `[`: up to
   * the first `]` that is not doubled, turning each `]]` back into `]`.
   * Gives the name and the text after the closing bracket.
   */
  function ReadIdentifier(s: string): Option<(string, string)>
    decreases |s|
  {
    if s == [] then None
    else if s[0] == ']' then
      if |s| >= 2 && s[1] == ']' then
        match ReadIdentifier(s[2..])
        case None => None
        case Some(p) => Some(("]" + p.0, p.1))
      else Some(("", s[1..]))
    else
      match ReadIdentifier(s[1..])
      case None => None
      case Some(p) => Some(([s[0]] + p.0, p.1))
  }

  /** Un-doubling an escaped name recovers it, and the closing bracket is found where it was put. */
  lemma {:induction false} ReadEscaped(name: string, rest: string)
    requires rest == [] || rest[0] != ']'
    ensures ReadIdentifier(EscapeIdentifier(name) + "]" + rest) == Some((name, rest))
    decreases |name|
  {
    if name != [] {
      var tail := EscapeIdentifier(name[1..]) + "]" + rest;
      ReadEscaped(name[1..], rest);
      if name[0] == ']' {
        assert EscapeIdentifier(name) + "]" + rest == "]]" + tail;
        assert ("]]" + tail)[2..] == tail;
      } else {
        assert EscapeIdentifier(name) + "]" + rest == [name[0]] + tail;
        assert ([name[0]] + tail)[1..] == tail;
      }
      assert name == [name[0]] + name[1..];
    }
  }

  /** The MERGE target, `[schema].[table]`, or `[table]` when the schema is empty (lines 124-127). */
  function TableSpec(schema: string, table: string): string
  {
    (if schema != "" then "[" + EscapeIdentifier(schema) + "]." else "")
    + "[" + EscapeIdentifier(table) + "]"
  }

  /** Reads a table reference back into (schema, table); the schema is empty when there is no prefix. */
  function ParseTableSpec(s: string): Option<(string, string)>
  {
    if s == [] || s[0] != '[' then None
    else match ReadIdentifier(s[1..])
      case None => None
      case Some(first) =>
        if first.1 == [] then Some(("", first.0))
        else if |first.1| >= 2 && first.1[0] == '.' && first.1[1] == '[' then
          match ReadIdentifier(first.1[2..])
          case None => None
          case Some(second) => if second.1 == [] then Some((first.0, second.0)) else None
        else None
  }

  /**
   * The target reference names exactly the schema and table it was built from:
   * the `[schema].` prefix is there iff the schema is non-empty, and
   * un-doubling each bracketed part gives the original names back.
   */
  lemma TableSpecRoundTrip(schema: string, table: string)
    ensures ParseTableSpec(TableSpec(schema, table)) == Some((schema, table))
  {
    if schema == "" {
      BareTableRoundTrip(table);
    } else {
      QualifiedRoundTrip(schema, table);
    }
  }

  /** `[table]` reads back as the table with an empty schema. */
  lemma BareTableRoundTrip(table: string)
    ensures ParseTableSpec(TableSpec("", table)) == Some(("", table))
  {
    var s := TableSpec("", table);
    ReadEscaped(table, "");
    assert s == "[" + (EscapeIdentifier(table) + "]" + "");
    assert s[1..] == EscapeIdentifier(table) + "]" + "";
  }

  /** `[schema].[table]` reads back as both names. */
  lemma QualifiedRoundTrip(schema: string, table: string)
    requires schema != ""
    ensures ParseTableSpec(TableSpec(schema, table)) == Some((schema, table))
  {
    var rest := ".[" + EscapeIdentifier(table) + "]";
    ReadSchemaPart(schema, table, rest);
    ReadTablePart(table, rest);
    ParseQualified(TableSpec(schema, table), schema, table, rest);
  }

  /** The first bracketed part of `[schema].[table]` reads back as the schema. */
  lemma ReadSchemaPart(schema: string, table: string, rest: string)
    requires schema != "" && rest == ".[" + EscapeIdentifier(table) + "]"
    ensures var s := TableSpec(schema, table);
            |s| > 0 && s[0] == '[' && ReadIdentifier(s[1..]) == Some((schema, rest))
  {
    var s := TableSpec(schema, table);
    DropOpening(EscapeIdentifier(schema), EscapeIdentifier(table), rest);
    ReadEscaped(schema, rest);
  }

  /** Dropping the opening bracket of `[e].[f]` leaves `e]` followed by `.[f]`. */
  lemma DropOpening(e: string, f: string, rest: string)
    requires rest == ".[" + f + "]"
    ensures ("[" + e + "]." + "[" + f + "]")[1..] == e + "]" + rest
  {
    var s := "[" + e + "]." + "[" + f + "]";
    assert |s| == |e + "]" + rest| + 1;
    forall k | 0 <= k < |s| - 1 ensures s[1..][k] == (e + "]" + rest)[k] {
      if k < |e| + 1 {
      } else {
        assert s[k + 1] == rest[k - |e| - 1];
      }
    }
  }

  /** What follows the schema part is `.[` and the table part, which reads back as the table. */
  lemma ReadTablePart(table: string, rest: string)
    requires rest == ".[" + EscapeIdentifier(table) + "]"
    ensures |rest| >= 2 && rest[0] == '.' && rest[1] == '['
    ensures ReadIdentifier(rest[2..]) == Some((table, ""))
  {
    ReadEscaped(table, "");
    assert rest[2..] == EscapeIdentifier(table) + "]" + "";
  }

  /** The parser's path through a qualified reference. */
  lemma ParseQualified(s: string, schema: string, table: string, rest: string)
    requires |s| > 0 && s[0] == '[' && ReadIdentifier(s[1..]) == Some((schema, rest))
    requires |rest| >= 2 && rest[0] == '.' && rest[1] == '['
    requires ReadIdentifier(rest[2..]) == Some((table, ""))
    ensures ParseTableSpec(s) == Some((schema, table))
  {
  }

  // ---------------------------------------------------------------------------
  // Temporary table and column lists

  /** `str(uuid).replace("-", "_")`. */
  function Underscored(s: string): (r: string)
    ensures |r| == |s| && '-' !in r
  {
    seq(|s|, i requires 0 <= i < |s| => if s[i] == '-' then '_' else s[i])
  }

  /** `"##" + str(uuid.uuid4()).replace("-", "_")`: a global temporary table (line 122). */
  function TempTableName(uuid: string): (r: string)
    ensures |r| == |uuid| + 2 && r[..2] == "##" && '-' !in r
  {
    "##" + Underscored(uuid)
  }

  function Conjunct(col: string): string { "main.[" + col + "] = temp.[" + col + "]" }
  function Assignment(col: string): string { "[" + col + "] = temp.[" + col + "]" }
  function TempRef(col: string): string { "temp.[" + col + "]" }

  /** `match_columns`, falling back to the primary key when none are given (lines 130-132). */
  function EffectiveMatch(matchColumns: seq<string>, primaryKey: seq<string>): seq<string>
  {
    if matchColumns == [] then primaryKey else matchColumns
  }

  /** `[col for col in df_columns if col not in match_columns]` (line 134). */
  function ColumnsToUpdate(dfColumns: seq<string>, matchColumns: seq<string>): (r: seq<string>)
    ensures Subsequence(r, dfColumns)
    ensures forall c :: c in r <==> c in dfColumns && c !in matchColumns
    ensures forall c :: c in r ==> c !in matchColumns
  {
    Filter(dfColumns, c => c !in matchColumns)
  }

  /** The statement, line by line: the MATCHED clause, then the NOT MATCHED clause, each unless skipped. */
  function MergeLines(tableSpec: string, dfColumns: seq<string>, matchColumns: seq<string>,
                      tempTable: string, skipInserts: bool, skipUpdates: bool): seq<string>
  {
    MergeHead(tableSpec, dfColumns, matchColumns, tempTable)
    + UpdateClause(dfColumns, matchColumns, skipUpdates)
    + InsertClause(dfColumns, skipInserts)
  }

  /** The target, the source rows and the join condition. */
  function MergeHead(tableSpec: string, dfColumns: seq<string>, matchColumns: seq<string>, tempTable: string): seq<string>
  {
    ["MERGE " + tableSpec + " WITH (HOLDLOCK) AS main",
     "USING (SELECT " + BracketList(dfColumns) + " FROM " + tempTable + ") AS temp",
     "ON (" + Join(Map(matchColumns, Conjunct), " AND ") + ")"]
  }

  /** `WHEN MATCHED THEN UPDATE SET ...` over the columns outside the match list. */
  function UpdateClause(dfColumns: seq<string>, matchColumns: seq<string>, skipUpdates: bool): seq<string>
  {
    if skipUpdates then []
    else ["WHEN MATCHED THEN",
          "  UPDATE SET " + Join(Map(ColumnsToUpdate(dfColumns, matchColumns), Assignment), ", ")]
  }

  /** `WHEN NOT MATCHED THEN INSERT (...) VALUES (...)` over every column. */
  function InsertClause(dfColumns: seq<string>, skipInserts: bool): seq<string>
  {
    if skipInserts then []
    else ["WHEN NOT MATCHED THEN",
          "  INSERT (" + BracketList(dfColumns) + ") VALUES (" + Join(Map(dfColumns, TempRef), ", ") + ")"]
  }

  /**
   * `df_sql_upsert` up to the execution (lines 119-153): refuses to skip both
   * kinds of write, otherwise assembles the MERGE text by successive appends.
   */
  method DfSqlUpsert(dfColumns: seq<string>, tableName: string, schema: string,
                     matchColumns: seq<string>, primaryKey: seq<string>, uuid: string,
                     skipInserts: bool, skipUpdates: bool)
    returns (r: Result<string, UpsertError>)
    ensures r.Failure? <==> skipInserts && skipUpdates
    ensures r.Success? ==> r.value == Join(MergeLines(TableSpec(schema, tableName), dfColumns,
                                                       EffectiveMatch(matchColumns, primaryKey),
                                                       TempTableName(uuid), skipInserts, skipUpdates), "\n") + ";"
  {
    if skipInserts && skipUpdates {
      return Failure(BothSkipped);
    }
    var tempTableName := "##" + Underscored(uuid);

    var tableSpec := "";
    if schema != "" {
      tableSpec := tableSpec + "[" + EscapeIdentifier(schema) + "].";
    }
    assert tableSpec == if schema != "" then "[" + EscapeIdentifier(schema) + "]." else "";
    tableSpec := tableSpec + "[" + EscapeIdentifier(tableName) + "]";
    assert tableSpec == TableSpec(schema, tableName);

    var matchCols := matchColumns;
    if matchCols == [] {
      matchCols := primaryKey;
    }
    var columnsToUpdate := ColumnsToUpdate(dfColumns, matchCols);

    var stmt := "MERGE " + tableSpec + " WITH (HOLDLOCK) AS main" + "\n";
    stmt := stmt + ("USING (SELECT " + BracketList(dfColumns) + " FROM " + tempTableName + ") AS temp") + "\n";
    var joinCondition := Join(Map(matchCols, Conjunct), " AND ");
    stmt := stmt + ("ON (" + joinCondition + ")");
    HeadText(tableSpec, dfColumns, matchCols, tempTableName);
    ghost var head := MergeHead(tableSpec, dfColumns, matchCols, tempTableName);
    UpdateText(stmt, head, dfColumns, matchCols, skipUpdates);

    if !skipUpdates {
      stmt := stmt + "\n" + "WHEN MATCHED THEN" + "\n";
      var updateList := Join(Map(columnsToUpdate, Assignment), ", ");
      stmt := stmt + ("  UPDATE SET " + updateList);
    }
    ghost var updated := head + UpdateClause(dfColumns, matchCols, skipUpdates);
    InsertText(stmt, updated, dfColumns, skipInserts);

    if !skipInserts {
      stmt := stmt + "\n" + "WHEN NOT MATCHED THEN" + "\n";
      var insertColsStr := BracketList(dfColumns);
      var insertValsStr := Join(Map(dfColumns, TempRef), ", ");
      stmt := stmt + ("  INSERT (" + insertColsStr + ") VALUES (" + insertValsStr + ")");
    }
    assert matchCols == EffectiveMatch(matchColumns, primaryKey);
    stmt := stmt + ";";
    return Success(stmt);
  }

  /** The first three appends give the head lines joined by newlines. */
  lemma HeadText(tableSpec: string, dfColumns: seq<string>, matchColumns: seq<string>, tempTable: string)
    ensures "MERGE " + tableSpec + " WITH (HOLDLOCK) AS main" + "\n"
            + ("USING (SELECT " + BracketList(dfColumns) + " FROM " + tempTable + ") AS temp") + "\n"
            + ("ON (" + Join(Map(matchColumns, Conjunct), " AND ") + ")")
            == Join(MergeHead(tableSpec, dfColumns, matchColumns, tempTable), "\n")
  {
    var h := MergeHead(tableSpec, dfColumns, matchColumns, tempTable);
    JoinThree(h[0], h[1], h[2], "\n");
  }

  /** The guarded MATCHED appends extend the text by the update clause's lines. */
  lemma UpdateText(stmt: string, lines: seq<string>, dfColumns: seq<string>, matchColumns: seq<string>, skipUpdates: bool)
    requires |lines| > 0 && stmt == Join(lines, "\n")
    ensures (if skipUpdates then stmt
             else stmt + "\n" + "WHEN MATCHED THEN" + "\n"
                  + ("  UPDATE SET " + Join(Map(ColumnsToUpdate(dfColumns, matchColumns), Assignment), ", ")))
            == Join(lines + UpdateClause(dfColumns, matchColumns, skipUpdates), "\n")
  {
    var u := UpdateClause(dfColumns, matchColumns, skipUpdates);
    if skipUpdates {
      assert lines + u == lines;
    } else {
      JoinAppendTwo(lines, u[0], u[1], "\n");
      assert lines + u == lines + [u[0], u[1]];
    }
  }

  /** The guarded NOT MATCHED appends extend the text by the insert clause's lines. */
  lemma InsertText(stmt: string, lines: seq<string>, dfColumns: seq<string>, skipInserts: bool)
    requires |lines| > 0 && stmt == Join(lines, "\n")
    ensures (if skipInserts then stmt
             else stmt + "\n" + "WHEN NOT MATCHED THEN" + "\n"
                  + ("  INSERT (" + BracketList(dfColumns) + ") VALUES (" + Join(Map(dfColumns, TempRef), ", ") + ")"))
            == Join(lines + InsertClause(dfColumns, skipInserts), "\n")
  {
    var u := InsertClause(dfColumns, skipInserts);
    if skipInserts {
      assert lines + u == lines;
    } else {
      JoinAppendTwo(lines, u[0], u[1], "\n");
      assert lines + u == lines + [u[0], u[1]];
    }
  }

  // ---------------------------------------------------------------------------
  // What the statement says

  lemma TempRefSafe(c: string, sep: string)
    requires sep == ", " || sep == " AND "
    requires !Contains(c, sep)
    ensures SafePart(TempRef(c), sep)
  {
    WrapSafe("temp.[", c, "]", sep);
  }

  lemma ConjunctSafe(c: string, sep: string)
    requires sep == ", " || sep == " AND "
    requires !Contains(c, sep)
    ensures SafePart(Conjunct(c), sep)
  {
    WrapTwiceSafe("main.[", c, "] = temp.[", "]", sep);
  }

  lemma AssignmentSafe(c: string, sep: string)
    requires sep == ", " || sep == " AND "
    requires !Contains(c, sep)
    ensures SafePart(Assignment(c), sep)
  {
    WrapTwiceSafe("[", c, "] = temp.[", "]", sep);
  }

  /** Splitting a rendered list on its separator gives one item per column, in column order. */
  lemma RenderedListSplits(cols: seq<string>, render: string -> string, sep: string)
    requires |cols| > 0
    requires sep == ", " || sep == " AND "
    requires render == Bracket || render == Conjunct || render == Assignment || render == TempRef
    requires forall i :: 0 <= i < |cols| ==> !Contains(cols[i], sep)
    ensures Split(Join(Map(cols, render), sep), sep) == Map(cols, render)
  {
    forall i | 0 <= i < |cols| ensures SafePart(Map(cols, render)[i], sep) {
      if render == Bracket {
        BracketSafe(cols[i], sep);
      } else if render == Conjunct {
        ConjunctSafe(cols[i], sep);
      } else if render == Assignment {
        AssignmentSafe(cols[i], sep);
      } else {
        TempRefSafe(cols[i], sep);
      }
    }
    SplitJoin(Map(cols, render), sep);
  }

  /**
   * The ON clause is one `main.[c] = temp.[c]` conjunct per match column,
   * joined by " AND " in match-column order (lines 139-140).
   */
  lemma OnClauseConjuncts(matchColumns: seq<string>)
    requires |matchColumns| > 0
    requires forall i :: 0 <= i < |matchColumns| ==> !Contains(matchColumns[i], " AND ")
    ensures var conjuncts := Split(Join(Map(matchColumns, Conjunct), " AND "), " AND ");
            |conjuncts| == |matchColumns| &&
            forall i :: 0 <= i < |matchColumns| ==>
              conjuncts[i] == "main.[" + matchColumns[i] + "] = temp.[" + matchColumns[i] + "]"
  {
    RenderedListSplits(matchColumns, Conjunct, " AND ");
  }

  /**
   * The INSERT column list and the VALUES list both name every data-frame
   * column once, in the same order (lines 149-151).
   */
  lemma InsertListsAligned(dfColumns: seq<string>)
    requires |dfColumns| > 0
    requires forall i :: 0 <= i < |dfColumns| ==> ',' !in dfColumns[i]
    ensures var cols := Split(BracketList(dfColumns), ", ");
            var vals := Split(Join(Map(dfColumns, TempRef), ", "), ", ");
            |cols| == |vals| == |dfColumns| &&
            forall i :: 0 <= i < |dfColumns| ==> cols[i] == "[" + dfColumns[i] + "]" && vals[i] == "temp." + cols[i]
  {
    CommaFree(dfColumns);
    RenderedListSplits(dfColumns, Bracket, ", ");
    RenderedListSplits(dfColumns, TempRef, ", ");
  }

  /** The UPDATE SET list assigns every non-match column from the source row, and nothing else. */
  lemma UpdateSetAssignments(dfColumns: seq<string>, matchColumns: seq<string>)
    requires |ColumnsToUpdate(dfColumns, matchColumns)| > 0
    requires forall i :: 0 <= i < |dfColumns| ==> ',' !in dfColumns[i]
    ensures var items := Split(Join(Map(ColumnsToUpdate(dfColumns, matchColumns), Assignment), ", "), ", ");
            forall item :: item in items <==> exists c :: c in dfColumns && c !in matchColumns && item == Assignment(c)
  {
    var upd := ColumnsToUpdate(dfColumns, matchColumns);
    forall i | 0 <= i < |upd| ensures ',' !in upd[i] {
      assert upd[i] in dfColumns;
    }
    CommaFree(upd);
    RenderedListSplits(upd, Assignment, ", ");
    var items := Map(upd, Assignment);
    forall item | item in items
      ensures exists c :: c in dfColumns && c !in matchColumns && item == Assignment(c)
    {
      var i :| 0 <= i < |items| && items[i] == item;
      assert upd[i] in upd;
    }
    forall c | c in dfColumns && c !in matchColumns
      ensures Assignment(c) in items
    {
      var i :| 0 <= i < |upd| && upd[i] == c;
      assert items[i] == Assignment(c);
    }
  }

  /** Non-empty lines without line breaks. */
  predicate NoBreaks(lines: seq<string>)
  {
    forall i :: 0 <= i < |lines| ==> |lines[i]| > 0 && '\n' !in lines[i]
  }

  lemma NoBreaksConcat(a: seq<string>, b: seq<string>)
    requires NoBreaks(a) && NoBreaks(b)
    ensures NoBreaks(a + b)
  {
  }

  /** The rendered column lists hold no line break when no column name does. */
  lemma ListsPlain(dfColumns: seq<string>, matchColumns: seq<string>)
    requires forall i :: 0 <= i < |dfColumns| ==> '\n' !in dfColumns[i]
    requires forall i :: 0 <= i < |matchColumns| ==> '\n' !in matchColumns[i]
    ensures '\n' !in BracketList(dfColumns)
    ensures '\n' !in Join(Map(dfColumns, TempRef), ", ")
    ensures '\n' !in Join(Map(matchColumns, Conjunct), " AND ")
    ensures '\n' !in Join(Map(ColumnsToUpdate(dfColumns, matchColumns), Assignment), ", ")
  {
    var upd := ColumnsToUpdate(dfColumns, matchColumns);
    forall i | 0 <= i < |upd| ensures '\n' !in upd[i] {
      assert upd[i] in dfColumns;
    }
    CharInJoin(Map(dfColumns, Bracket), ", ", '\n');
    CharInJoin(Map(dfColumns, TempRef), ", ", '\n');
    CharInJoin(Map(matchColumns, Conjunct), " AND ", '\n');
    CharInJoin(Map(upd, Assignment), ", ", '\n');
  }

  /** The lines of the statement, given line-break-free pieces, hold no line break. */
  lemma LinesPlain(tableSpec: string, brackets: string, tempTable: string, conjuncts: string,
                   assignments: string, refs: string, skipInserts: bool, skipUpdates: bool)
    requires '\n' !in tableSpec && '\n' !in brackets && '\n' !in tempTable
    requires '\n' !in conjuncts && '\n' !in assignments && '\n' !in refs
    ensures NoBreaks(["MERGE " + tableSpec + " WITH (HOLDLOCK) AS main",
                      "USING (SELECT " + brackets + " FROM " + tempTable + ") AS temp",
                      "ON (" + conjuncts + ")"]
                     + (if skipUpdates then [] else ["WHEN MATCHED THEN", "  UPDATE SET " + assignments])
                     + (if skipInserts then []
                        else ["WHEN NOT MATCHED THEN", "  INSERT (" + brackets + ") VALUES (" + refs + ")"]))
  {
    var head := ["MERGE " + tableSpec + " WITH (HOLDLOCK) AS main",
                 "USING (SELECT " + brackets + " FROM " + tempTable + ") AS temp",
                 "ON (" + conjuncts + ")"];
    var updates := if skipUpdates then [] else ["WHEN MATCHED THEN", "  UPDATE SET " + assignments];
    var inserts := if skipInserts then [] else ["WHEN NOT MATCHED THEN", "  INSERT (" + brackets + ") VALUES (" + refs + ")"];
    assert NoBreaks(head);
    assert NoBreaks(updates);
    assert NoBreaks(inserts);
    NoBreaksConcat(head, updates);
    NoBreaksConcat(head + updates, inserts);
  }

  /** None of the lines of the statement contains a line break when no identifier does. */
  lemma MergeLinesPlain(tableSpec: string, dfColumns: seq<string>, matchColumns: seq<string>,
                        tempTable: string, skipInserts: bool, skipUpdates: bool)
    requires '\n' !in tableSpec && '\n' !in tempTable
    requires forall i :: 0 <= i < |dfColumns| ==> '\n' !in dfColumns[i]
    requires forall i :: 0 <= i < |matchColumns| ==> '\n' !in matchColumns[i]
    ensures NoBreaks(MergeLines(tableSpec, dfColumns, matchColumns, tempTable, skipInserts, skipUpdates))
  {
    ListsPlain(dfColumns, matchColumns);
    LinesPlain(tableSpec, BracketList(dfColumns), tempTable, Join(Map(matchColumns, Conjunct), " AND "),
               Join(Map(ColumnsToUpdate(dfColumns, matchColumns), Assignment), ", "),
               Join(Map(dfColumns, TempRef), ", "), skipInserts, skipUpdates);
  }

  /**
   * The clauses of the statement: the MATCHED clause is present iff updates
   * are not skipped, the NOT MATCHED clause iff inserts are not skipped, and
   * MATCHED comes first, right after the join (lines 143-151).
   */
  lemma MergeClauses(tableSpec: string, dfColumns: seq<string>, matchColumns: seq<string>,
                     tempTable: string, skipInserts: bool, skipUpdates: bool)
    ensures var lines := MergeLines(tableSpec, dfColumns, matchColumns, tempTable, skipInserts, skipUpdates);
            && lines[0] == "MERGE " + tableSpec + " WITH (HOLDLOCK) AS main"
            && ("WHEN MATCHED THEN" in lines <==> !skipUpdates)
            && ("WHEN NOT MATCHED THEN" in lines <==> !skipInserts)
            && (!skipUpdates ==> lines[3] == "WHEN MATCHED THEN")
            && (!skipInserts ==> lines[|lines| - 2] == "WHEN NOT MATCHED THEN")
  {
    var h := MergeHead(tableSpec, dfColumns, matchColumns, tempTable);
    var u := UpdateClause(dfColumns, matchColumns, skipUpdates);
    var ins := InsertClause(dfColumns, skipInserts);
    assert h[0][0] == 'M' && h[1][0] == 'U' && h[2][0] == 'O';
    assert "WHEN MATCHED THEN" !in h && "WHEN NOT MATCHED THEN" !in h;
    assert !skipUpdates ==> u[1][0] == ' ';
    assert "WHEN NOT MATCHED THEN" !in u;
    assert !skipInserts ==> ins[1][0] == ' ';
    assert "WHEN MATCHED THEN" !in ins;
  }

  /**
   * Reading the statement line by line, without its final `;`, gives back
   * exactly the clause lines, provided no identifier holds a line break.
   */
  lemma MergeStatementLines(dfColumns: seq<string>, tableName: string, schema: string,
                            matchColumns: seq<string>, uuid: string, skipInserts: bool, skipUpdates: bool,
                            stmt: string)
    requires '\n' !in schema && '\n' !in tableName && '\n' !in uuid
    requires forall i :: 0 <= i < |dfColumns| ==> '\n' !in dfColumns[i]
    requires forall i :: 0 <= i < |matchColumns| ==> '\n' !in matchColumns[i]
    requires stmt == Join(MergeLines(TableSpec(schema, tableName), dfColumns, matchColumns,
                                     TempTableName(uuid), skipInserts, skipUpdates), "\n") + ";"
    ensures stmt[|stmt| - 1] == ';'
    ensures Split(stmt[..|stmt| - 1], "\n") ==
            MergeLines(TableSpec(schema, tableName), dfColumns, matchColumns, TempTableName(uuid), skipInserts, skipUpdates)
  {
    var spec := TableSpec(schema, tableName);
    var temp := TempTableName(uuid);
    var lines := MergeLines(spec, dfColumns, matchColumns, temp, skipInserts, skipUpdates);
    assert '\n' !in spec;
    assert '\n' !in Underscored(uuid);
    MergeLinesPlain(spec, dfColumns, matchColumns, temp, skipInserts, skipUpdates);
    forall i | 0 <= i < |lines| ensures SafePart(lines[i], "\n") {
      MissingChar(lines[i], "\n", '\n');
    }
    SplitJoin(lines, "\n");
    assert stmt[..|stmt| - 1] == Join(lines, "\n");
  }

  // ---------------------------------------------------------------------------
  // df_to_new_table: the dtype map

  /** The `varchar` keyword argument, 255 by default (lines 242-246). */
  function VarcharLength(kwargs: map<string, int>): (n: int)
    ensures "varchar" !in kwargs ==> n == 255
    ensures "varchar" in kwargs ==> n == kwargs["varchar"]
  {
    if "varchar" in kwargs then kwargs["varchar"] else 255
  }

  /**
   * The entry one column gets: the four `if` tests run in order and each
   * match overwrites the previous one, so the last matching test decides;
   * a dtype matching none gets no entry.
   */
  function NewTableType(dtype: string, lenVarchar: int): (t: Option<SqlType>)
    ensures t.None? <==> Matches(dtype) == 0
    ensures IsInt(dtype) ==> t == Some(Int)
    ensures !IsInt(dtype) && IsFloat(dtype) ==> t == Some(Float(Some(3)))
    ensures !IsInt(dtype) && !IsFloat(dtype) && IsDatetime(dtype) ==> t == Some(DateTime)
    ensures t == Some(NVarchar(lenVarchar)) <==> IsObject(dtype) && Matches(dtype) == 1
  {
    if IsInt(dtype) then Some(Int)
    else if IsFloat(dtype) then Some(Float(Some(3)))
    else if IsDatetime(dtype) then Some(DateTime)
    else if IsObject(dtype) then Some(NVarchar(lenVarchar))
    else None
  }

  /** The map after processing the columns in order. */
  function NewTableTypeMap(columns: seq<string>, dtypes: seq<string>, lenVarchar: int): map<string, SqlType>
    requires |columns| == |dtypes|
    decreases |columns|
  {
    if columns == [] then map[]
    else
      var n := |columns| - 1;
      var m := NewTableTypeMap(columns[..n], dtypes[..n], lenVarchar);
      match NewTableType(dtypes[n], lenVarchar)
      case None => m
      case Some(t) => m[columns[n] := t]
  }

  /** The last column's entry is added on top of the entries of the columns before it. */
  lemma NewTableTypeMapLast(columns: seq<string>, dtypes: seq<string>, lenVarchar: int)
    requires |columns| == |dtypes| > 0
    ensures var n := |columns| - 1;
            var prefix := NewTableTypeMap(columns[..n], dtypes[..n], lenVarchar);
            NewTableTypeMap(columns, dtypes, lenVarchar) ==
              if Matches(dtypes[n]) == 0 then prefix
              else prefix[columns[n] := NewTableType(dtypes[n], lenVarchar).value]
  {
  }

  /** A column name gets an entry iff some column of that name has a dtype that passes a test. */
  lemma {:induction false} NewTableTypeMapKeys(columns: seq<string>, dtypes: seq<string>, lenVarchar: int)
    requires |columns| == |dtypes|
    ensures forall c :: c in NewTableTypeMap(columns, dtypes, lenVarchar) <==>
              exists i :: 0 <= i < |columns| && columns[i] == c && Matches(dtypes[i]) > 0
    decreases |columns|
  {
    if columns != [] {
      var n := |columns| - 1;
      NewTableTypeMapKeys(columns[..n], dtypes[..n], lenVarchar);
      NewTableTypeMapLast(columns, dtypes, lenVarchar);
      var prefix := NewTableTypeMap(columns[..n], dtypes[..n], lenVarchar);
      var m := NewTableTypeMap(columns, dtypes, lenVarchar);
      forall c ensures c in m <==> exists i :: 0 <= i < |columns| && columns[i] == c && Matches(dtypes[i]) > 0 {
        if c == columns[n] && Matches(dtypes[n]) > 0 {
          assert c in m;
        } else {
          assert c in m <==> c in prefix;
          if c in prefix {
            var i :| 0 <= i < n && columns[..n][i] == c && Matches(dtypes[..n][i]) > 0;
            assert columns[i] == c && Matches(dtypes[i]) > 0;
          }
          if exists i :: 0 <= i < |columns| && columns[i] == c && Matches(dtypes[i]) > 0 {
            var i :| 0 <= i < |columns| && columns[i] == c && Matches(dtypes[i]) > 0;
            assert i < n;
            assert columns[..n][i] == c && Matches(dtypes[..n][i]) > 0;
          }
        }
      }
    }
  }

  /** Each entry is the type of the last column of that name whose dtype passes a test. */
  lemma {:induction false} NewTableTypeMapValues(columns: seq<string>, dtypes: seq<string>, lenVarchar: int, i: nat)
    requires |columns| == |dtypes|
    requires i < |columns| && Matches(dtypes[i]) > 0
    requires forall j :: i < j < |columns| && columns[j] == columns[i] ==> Matches(dtypes[j]) == 0
    ensures columns[i] in NewTableTypeMap(columns, dtypes, lenVarchar)
    ensures NewTableTypeMap(columns, dtypes, lenVarchar)[columns[i]] == NewTableType(dtypes[i], lenVarchar).value
    decreases |columns|
  {
    var n := |columns| - 1;
    NewTableTypeMapLast(columns, dtypes, lenVarchar);
    if i < n {
      var cs, ds := columns[..n], dtypes[..n];
      assert cs[i] == columns[i] && ds[i] == dtypes[i];
      assert forall j :: i < j < n ==> cs[j] == columns[j] && ds[j] == dtypes[j];
      NewTableTypeMapValues(cs, ds, lenVarchar, i);
    }
  }

  /**
   * The dtype loop of `df_to_new_table` (lines 241-266): one pass over the
   * columns, each of the four tests updating the map in turn.
   */
  method DfToNewTableTypes(columns: seq<string>, dtypes: seq<string>, kwargs: map<string, int>)
    returns (dtypedict: map<string, SqlType>)
    requires |columns| == |dtypes|
    ensures dtypedict == NewTableTypeMap(columns, dtypes, VarcharLength(kwargs))
  {
    var lenVarchar := 255;
    if "varchar" in kwargs {
      lenVarchar := kwargs["varchar"];
    }
    dtypedict := map[];
    for i := 0 to |columns|
      invariant dtypedict == NewTableTypeMap(columns[..i], dtypes[..i], lenVarchar)
    {
      var col, dtype := columns[i], dtypes[i];
      ghost var before := dtypedict;
      if IsObject(dtype) {
        dtypedict := dtypedict[col := NVarchar(lenVarchar)];
      }
      if IsDatetime(dtype) {
        dtypedict := dtypedict[col := DateTime];
      }
      if IsFloat(dtype) {
        dtypedict := dtypedict[col := Float(Some(3))];
      }
      if IsInt(dtype) {
        dtypedict := dtypedict[col := Int];
      }
      assert NewTableType(dtype, lenVarchar).None? ==> dtypedict == before;
      assert NewTableType(dtype, lenVarchar).Some? ==> dtypedict == before[col := NewTableType(dtype, lenVarchar).value];
      assert columns[..i + 1][..i] == columns[..i] && dtypes[..i + 1][..i] == dtypes[..i];
    }
    assert columns[..|columns|] == columns && dtypes[..|dtypes|] == dtypes;
  }
}
