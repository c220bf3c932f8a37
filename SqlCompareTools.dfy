/**
 * `SqlCompareTools` (Modules/sql_compare_tools.py): the query that fetches the
 * oldest stored row of every partition, the change set `compare_and_upload`
 * computes between freshly crawled rows and those stored rows, where the rows
 * go, and when a notification is sent. The database, the environment and the
 * mail server are parameters; a frame is its column names and its rows, each
 * row a map from column name to value.
 */
module SqlCompareTools {
  import opened Wrappers
  import opened Seqs
  import opened Text
  import opened SqlText
  import opened Dates

  // ---------------------------------------------------------------------------
  // get_old_data: the query text

  /** `n` spaces. */
  function Indent(n: nat): (r: string)
    ensures |r| == n && forall i :: 0 <= i < n ==> r[i] == ' '
  {
    seq(n, _ => ' ')
  }

  /**
   * The lines of the triple-quoted query of `get_old_data` that follow its
   * opening line break (lines 97-112), indentation included; the last one is
   * the indentation before the closing quotes.
   */
  function OldDataLines(partition: seq<string>, valueColumn: string, dbName: string, schema: string, table: string)
    : seq<string>
  {
    var list := BracketList(partition);
    [Indent(8) + "SELECT",
     Indent(12) + list + ", [" + valueColumn + "] AS 'old_" + valueColumn + "'",
     Indent(8) + "FROM\t(",
     Indent(12) + "SELECT",
     Indent(16) + "*",
     Indent(16) + ",ROW_NUMBER() OVER (PARTITION BY",
     Indent(40) + list,
     Indent(36) + "ORDER BY",
     Indent(40) + "[CrawlDate]",
     Indent(28) + ") rn",
     Indent(12) + "FROM\t[" + dbName + "].[" + schema + "].[" + table + "]",
     Indent(8) + ") X",
     Indent(8) + "WHERE",
     Indent(12) + "rn = 1",
     Indent(8)]
  }

  /** `" AND [DATE] > '" + date.strftime("%Y%m%d") + "'"` when a date is given (lines 114-115). */
  function DateFilter(date: Option<Date>): string
    requires date.Some? ==> Valid(date.value)
  {
    if date.Some? then " AND [DATE] > '" + Yyyymmdd(date.value) + "'" else ""
  }

  /** The query `get_old_data` sends (lines 97-115). */
  function OldDataQuery(partition: seq<string>, valueColumn: string, dbName: string, schema: string, table: string,
                        date: Option<Date>): string
    requires date.Some? ==> Valid(date.value)
  {
    "\n" + Join(OldDataLines(partition, valueColumn, dbName, schema, table), "\n") + DateFilter(date)
  }

  /** Identifiers that hold no line break. */
  predicate Plain(partition: seq<string>, valueColumn: string, dbName: string, schema: string, table: string)
  {
    (forall i :: 0 <= i < |partition| ==> '\n' !in partition[i]) &&
    '\n' !in valueColumn && '\n' !in dbName && '\n' !in schema && '\n' !in table
  }

  /** Non-empty lines without line breaks. */
  predicate PlainLines(lines: seq<string>)
  {
    forall i :: 0 <= i < |lines| ==> |lines[i]| > 0 && '\n' !in lines[i]
  }

  /** Lines joined by line breaks split back into the same lines. */
  lemma SplitPlainLines(lines: seq<string>)
    requires |lines| > 0 && PlainLines(lines)
    ensures Split(Join(lines, "\n"), "\n") == lines
  {
    forall i | 0 <= i < |lines| ensures SafePart(lines[i], "\n") {
      MissingChar(lines[i], "\n", '\n');
    }
    SplitJoin(lines, "\n");
  }

  /** A text without line breaks, bracketed or not, keeps none. */
  lemma ListPlain(partition: seq<string>)
    requires forall i :: 0 <= i < |partition| ==> '\n' !in partition[i]
    ensures '\n' !in BracketList(partition)
  {
    var brackets := Map(partition, Bracket);
    forall i | 0 <= i < |brackets| ensures '\n' !in brackets[i] {
      assert brackets[i] == "[" + partition[i] + "]";
    }
    CharInJoin(brackets, ", ", '\n');
  }

  /** No template line holds a line break when no identifier does. */
  lemma OldDataLinesPlain(partition: seq<string>, valueColumn: string, dbName: string, schema: string, table: string)
    requires Plain(partition, valueColumn, dbName, schema, table)
    ensures PlainLines(OldDataLines(partition, valueColumn, dbName, schema, table))
  {
    var list := BracketList(partition);
    ListPlain(partition);
    var lines := OldDataLines(partition, valueColumn, dbName, schema, table);
    assert '\n' !in lines[1] by {
      assert lines[1] == Indent(12) + list + ", [" + valueColumn + "] AS 'old_" + valueColumn + "'";
    }
    assert '\n' !in lines[6] by {
      assert lines[6] == Indent(40) + list;
    }
    assert '\n' !in lines[10] by {
      assert lines[10] == Indent(12) + "FROM\t[" + dbName + "].[" + schema + "].[" + table + "]";
    }
  }

  /** The date filter holds no line break. */
  lemma DateFilterPlain(date: Option<Date>)
    requires date.Some? ==> Valid(date.value)
    ensures '\n' !in DateFilter(date)
  {
    if date.Some? {
      var stamp := Yyyymmdd(date.value);
      assert forall i :: 0 <= i < |stamp| ==> stamp[i] != '\n';
    }
  }

  /** Appending text to a join extends its last part. */
  lemma JoinExtendLast(parts: seq<string>, suffix: string, sep: string)
    requires |parts| > 1
    ensures Join(parts, sep) + suffix == Join(parts[..|parts| - 1] + [parts[|parts| - 1] + suffix], sep)
  {
    var init, last := parts[..|parts| - 1], parts[|parts| - 1];
    JoinSnoc(init, last, sep);
    JoinSnoc(init, last + suffix, sep);
    assert parts == init + [last];
  }

  /** A line break, plain lines joined by line breaks and a plain suffix split back into those lines, the suffix on the last. */
  lemma SplitTemplate(lines: seq<string>, suffix: string)
    requires |lines| > 1 && PlainLines(lines) && '\n' !in suffix
    ensures var q := "\n" + Join(lines, "\n") + suffix;
            q[0] == '\n' && Split(q[1..], "\n") == lines[..|lines| - 1] + [lines[|lines| - 1] + suffix]
  {
    var n := |lines| - 1;
    var all := lines[..n] + [lines[n] + suffix];
    assert PlainLines(all) by {
      forall i | 0 <= i < |all| ensures |all[i]| > 0 && '\n' !in all[i] {
        if i < n {
          assert all[i] == lines[i];
        } else {
          assert all[i] == lines[n] + suffix;
        }
      }
    }
    var rest := Join(lines, "\n") + suffix;
    assert Split(rest, "\n") == all by {
      SplitPlainLines(all);
      JoinExtendLast(lines, suffix, "\n");
    }
    assert ("\n" + rest)[1..] == rest;
    assert "\n" + Join(lines, "\n") + suffix == "\n" + rest;
  }

  /**
   * Read line by line, the query is its fifteen template lines, the date
   * filter, when there is one, trailing the last; so the SELECT list and the
   * PARTITION BY list are the same bracketed list, the value column is
   * aliased `old_<name>`, and the rows kept are the first under ascending
   * `[CrawlDate]` (lines 97-115).
   */
  lemma OldDataQueryLines(partition: seq<string>, valueColumn: string, dbName: string, schema: string, table: string,
                          date: Option<Date>)
    requires date.Some? ==> Valid(date.value)
    requires Plain(partition, valueColumn, dbName, schema, table)
    ensures var q := OldDataQuery(partition, valueColumn, dbName, schema, table, date);
            var lines := OldDataLines(partition, valueColumn, dbName, schema, table);
            q[0] == '\n' && Split(q[1..], "\n") == lines[..14] + [lines[14] + DateFilter(date)]
  {
    OldDataLinesPlain(partition, valueColumn, dbName, schema, table);
    DateFilterPlain(date);
    SplitTemplate(OldDataLines(partition, valueColumn, dbName, schema, table), DateFilter(date));
  }

  /**
   * The SELECT line and the PARTITION BY line carry the same list, which reads
   * back as one `[c]` per partition column, in the order given; the value
   * column follows it in the SELECT line as `old_<name>` (lines 99, 104).
   */
  lemma OldDataSameColumns(partition: seq<string>, valueColumn: string, dbName: string, schema: string, table: string,
                           date: Option<Date>)
    requires date.Some? ==> Valid(date.value)
    requires Plain(partition, valueColumn, dbName, schema, table)
    requires |partition| > 0 && forall i :: 0 <= i < |partition| ==> ',' !in partition[i]
    ensures var lines := Split(OldDataQuery(partition, valueColumn, dbName, schema, table, date)[1..], "\n");
            var list := BracketList(partition);
            && |lines| == 15
            && lines[1] == Indent(12) + list + ", [" + valueColumn + "] AS 'old_" + valueColumn + "'"
            && lines[6] == Indent(40) + list
            && Split(list, ", ") == Map(partition, Bracket)
  {
    OldDataQueryLines(partition, valueColumn, dbName, schema, table, date);
    BracketListSplits(partition);
  }

  /** The eight characters after a 23-character prefix. */
  lemma StampAfter(prefix: string, stamp: string)
    requires |prefix| == 23 && |stamp| == 8
    ensures (prefix + stamp + "'")[23..31] == stamp
  {
  }

  /**
   * The last line is the bare indentation without a date, and with one it
   * ends in `AND [DATE] > '<stamp>'`, from which the date reads back (lines 114-115).
   */
  lemma OldDataDateFilter(partition: seq<string>, valueColumn: string, dbName: string, schema: string, table: string,
                          date: Option<Date>)
    requires date.Some? ==> Valid(date.value)
    requires Plain(partition, valueColumn, dbName, schema, table)
    ensures var lines := Split(OldDataQuery(partition, valueColumn, dbName, schema, table, date)[1..], "\n");
            && |lines| == 15
            && (date.None? ==> lines[14] == Indent(8))
            && (date.Some? ==>
                  |lines[14]| == 32 && lines[14][..23] == Indent(8) + " AND [DATE] > '" && lines[14][31] == '\'' &&
                  IsDigits(lines[14][23..31]) && ParseYyyymmdd(lines[14][23..31]) == date.value)
  {
    OldDataQueryLines(partition, valueColumn, dbName, schema, table, date);
    assert OldDataLines(partition, valueColumn, dbName, schema, table)[14] == Indent(8);
    DateLine(date);
  }

  /** The closing line with the date filter appended. */
  lemma DateLine(date: Option<Date>)
    requires date.Some? ==> Valid(date.value)
    ensures var last := Indent(8) + DateFilter(date);
            && (date.None? ==> last == Indent(8))
            && (date.Some? ==>
                  |last| == 32 && last[..23] == Indent(8) + " AND [DATE] > '" && last[31] == '\'' &&
                  IsDigits(last[23..31]) && ParseYyyymmdd(last[23..31]) == date.value)
  {
    if date.Some? {
      var stamp := Yyyymmdd(date.value);
      var prefix := Indent(8) + " AND [DATE] > '";
      var last := Indent(8) + DateFilter(date);
      assert last == prefix + stamp + "'";
      StampAfter(prefix, stamp);
      assert last[..23] == prefix;
      YyyymmddRoundTrip(date.value);
    }
  }

  // ---------------------------------------------------------------------------
  // compare_and_upload: the change set

  /** A frame row: column name to value. */
  type Row<V> = map<string, V>

  /** `[c for c in df_old.columns if new_column_name not in c]` (lines 150-152). */
  function ColsToJoin(oldColumns: seq<string>, newColumnName: string): (r: seq<string>)
    ensures Subsequence(r, oldColumns)
    ensures forall c :: c in r <==> c in oldColumns && !Contains(c, newColumnName)
  {
    Filter(oldColumns, c => !Contains(c, newColumnName))
  }

  /** The default old-value column, `old_Value`, is never a join column under the default `Value`. */
  lemma OldValueNotJoined(oldColumns: seq<string>)
    ensures "old_Value" !in ColsToJoin(oldColumns, "Value")
  {
    assert MatchAt("old_Value", "Value", 4);
  }

  /** `df_source.columns`, or `df_source.columns[1:]` without `keep_first_col` (lines 160-165). */
  function ColsToKeep(sourceColumns: seq<string>, keepFirstCol: bool): (r: seq<string>)
    ensures keepFirstCol ==> r == sourceColumns
    ensures !keepFirstCol && sourceColumns != [] ==> [sourceColumns[0]] + r == sourceColumns
    ensures !keepFirstCol && sourceColumns == [] ==> r == []
  {
    if keepFirstCol then sourceColumns
    else if sourceColumns == [] then []
    else sourceColumns[1..]
  }

  /** `df[cols]` on one row. */
  function Project<V>(row: Row<V>, cols: seq<string>): (r: Row<V>)
    ensures forall c :: c in r <==> c in cols && c in row
    ensures forall c :: c in r ==> r[c] == row[c]
  {
    map c | c in cols && c in row :: row[c]
  }

  /** A row of the left merge: the new row and the stored value beside it (`prior`), `None` standing for NaN. */
  datatype Joined<V> = Joined(row: Row<V>, prior: Option<V>)

  /** Two rows agree on every join column. */
  predicate SameKeys<V(==,!new)>(a: Row<V>, b: Row<V>, on: seq<string>)
  {
    forall c :: c in on ==> c in a && c in b && a[c] == b[c]
  }

  /** The old rows a new row matches, in old-frame order. */
  function Matching<V(==,!new)>(row: Row<V>, oldRows: seq<Row<V>>, on: seq<string>): (r: seq<Row<V>>)
    ensures forall o :: o in r <==> o in oldRows && SameKeys(row, o, on)
  {
    Filter(oldRows, o => SameKeys(row, o, on))
  }

  /** The old value of a stored row. */
  function OldValue<V>(o: Row<V>, oldColumn: string): Option<V>
  {
    if oldColumn in o then Some(o[oldColumn]) else None
  }

  /** The merge's rows for one new row: one per matching old row, or one with NaN when nothing matches. */
  function JoinRow<V(==,!new)>(row: Row<V>, oldRows: seq<Row<V>>, on: seq<string>, oldColumn: string): (r: seq<Joined<V>>)
    ensures |r| > 0 && forall j :: j in r ==> j.row == row
    ensures Matching(row, oldRows, on) == [] ==> r == [Joined(row, None)]
  {
    var ms := Matching(row, oldRows, on);
    if ms == [] then [Joined(row, None)]
    else Map(ms, o => Joined(row, OldValue(o, oldColumn)))
  }

  /** `pd.merge(new, old, on=cols2join, how="left")`: new rows in order, each followed by its matches (lines 171-176). */
  function LeftJoin<V(==,!new)>(rows: seq<Row<V>>, oldRows: seq<Row<V>>, on: seq<string>, oldColumn: string)
    : (r: seq<Joined<V>>)
    decreases |rows|
  {
    if rows == [] then []
    else LeftJoin(rows[..|rows| - 1], oldRows, on, oldColumn) + JoinRow(rows[|rows| - 1], oldRows, on, oldColumn)
  }

  /** `round(new, 3) != round(old, 3)`, NaN differing from everything (line 178). */
  predicate Changed<V>(j: Joined<V>, newColumn: string, rounded: V -> int)
  {
    j.prior.None? || (newColumn in j.row && rounded(j.row[newColumn]) != rounded(j.prior.value))
  }

  /** The `.loc` filter: the merged rows whose rounded values differ, in merge order (lines 177-179). */
  function ChangeSet<V(==,!new)>(joined: seq<Joined<V>>, newColumn: string, rounded: V -> int): (r: seq<Joined<V>>)
    ensures Subsequence(r, joined)
    ensures forall j :: j in r <==> j in joined && Changed(j, newColumn, rounded)
  {
    Filter(joined, j => Changed(j, newColumn, rounded))
  }

  /** The merge of a non-empty frame: that of all rows but the last, then the last row's rows. */
  lemma LeftJoinSnoc<V(!new)>(rows: seq<Row<V>>, oldRows: seq<Row<V>>, on: seq<string>, oldColumn: string)
    requires rows != []
    ensures LeftJoin(rows, oldRows, on, oldColumn) ==
            LeftJoin(rows[..|rows| - 1], oldRows, on, oldColumn) + JoinRow(rows[|rows| - 1], oldRows, on, oldColumn)
  {
  }

  /** The stored value a new row finds: that of its first match, NaN without one. */
  function Looked<V(==,!new)>(row: Row<V>, oldRows: seq<Row<V>>, on: seq<string>, oldColumn: string): Option<V>
  {
    var ms := Matching(row, oldRows, on);
    if ms == [] then None else OldValue(ms[0], oldColumn)
  }

  /** A new row with at most one match gives exactly one merged row. */
  lemma JoinRowSingle<V(!new)>(row: Row<V>, oldRows: seq<Row<V>>, on: seq<string>, oldColumn: string)
    requires |Matching(row, oldRows, on)| <= 1
    ensures JoinRow(row, oldRows, on, oldColumn) == [Joined(row, Looked(row, oldRows, on, oldColumn))]
  {
    var ms := Matching(row, oldRows, on);
    if ms != [] {
      assert Map(ms, o => Joined(row, OldValue(o, oldColumn))) == [Joined(row, OldValue(ms[0], oldColumn))];
    }
  }

  /** When each new row merges into one row given by `f`, the merge is `f` applied row by row. */
  lemma {:induction false} LeftJoinPointwise<V(!new)>(rows: seq<Row<V>>, oldRows: seq<Row<V>>, on: seq<string>,
                                                     oldColumn: string, f: Row<V> -> Joined<V>)
    requires forall i :: 0 <= i < |rows| ==> JoinRow(rows[i], oldRows, on, oldColumn) == [f(rows[i])]
    ensures LeftJoin(rows, oldRows, on, oldColumn) == Map(rows, f)
    decreases |rows|
  {
    if rows != [] {
      var n := |rows| - 1;
      var init := rows[..n];
      assert forall i :: 0 <= i < n ==> init[i] == rows[i];
      LeftJoinPointwise(init, oldRows, on, oldColumn, f);
      LeftJoinSnoc(rows, oldRows, on, oldColumn);
      Snoc(rows);
      MapSnoc(init, rows[n], f);
    }
  }

  /** When every new row matches at most one old row, the merge has one row per new row, in order. */
  lemma LeftJoinOneToOne<V(!new)>(rows: seq<Row<V>>, oldRows: seq<Row<V>>, on: seq<string>, oldColumn: string)
    requires forall i :: 0 <= i < |rows| ==> |Matching(rows[i], oldRows, on)| <= 1
    ensures LeftJoin(rows, oldRows, on, oldColumn) ==
            Map(rows, row => Joined(row, Looked(row, oldRows, on, oldColumn)))
  {
    var f := row => Joined(row, Looked(row, oldRows, on, oldColumn));
    forall i | 0 <= i < |rows| ensures JoinRow(rows[i], oldRows, on, oldColumn) == [f(rows[i])] {
      JoinRowSingle(rows[i], oldRows, on, oldColumn);
    }
    LeftJoinPointwise(rows, oldRows, on, oldColumn, f);
  }

  /** A new row that matches no old row reaches the change set, with NaN beside it (lines 171-179). */
  lemma {:induction false} UnmatchedKept<V(!new)>(rows: seq<Row<V>>, oldRows: seq<Row<V>>, on: seq<string>,
                                               oldColumn: string, newColumn: string, rounded: V -> int, i: nat)
    requires i < |rows| && Matching(rows[i], oldRows, on) == []
    ensures Joined(rows[i], None) in ChangeSet(LeftJoin(rows, oldRows, on, oldColumn), newColumn, rounded)
    decreases |rows|
  {
    var n := |rows| - 1;
    if i < n {
      UnmatchedKept(rows[..n], oldRows, on, oldColumn, newColumn, rounded, i);
    }
    assert Joined(rows[i], None) in LeftJoin(rows, oldRows, on, oldColumn);
  }

  /** Against an empty history every new row is new: the change set is all of them, NaN beside each. */
  lemma {:induction false} EmptyHistoryKeepsAll<V(!new)>(rows: seq<Row<V>>, on: seq<string>, oldColumn: string,
                                                      newColumn: string, rounded: V -> int)
    ensures ChangeSet(LeftJoin(rows, [], on, oldColumn), newColumn, rounded) == Map(rows, r => Joined(r, None))
    decreases |rows|
  {
    if rows != [] {
      var n := |rows| - 1;
      var init := LeftJoin(rows[..n], [], on, oldColumn);
      EmptyHistoryKeepsAll(rows[..n], on, oldColumn, newColumn, rounded);
      assert Matching(rows[n], [], on) == [];
      LeftJoinSnoc(rows, [], on, oldColumn);
      FilterSnoc(init, Joined(rows[n], None), j => Changed(j, newColumn, rounded));
      Snoc(rows);
      MapSnoc(rows[..n], rows[n], r => Joined(r, None));
    }
  }

  /** Every old row a new row matches holds its value, rounded alike; and there is at least one. */
  predicate Agrees<V(==,!new)>(row: Row<V>, oldRows: seq<Row<V>>, on: seq<string>, oldColumn: string,
                               newColumn: string, rounded: V -> int)
  {
    var ms := Matching(row, oldRows, on);
    && ms != []
    && forall k :: 0 <= k < |ms| ==>
         oldColumn in ms[k] && newColumn in row && rounded(ms[k][oldColumn]) == rounded(row[newColumn])
  }

  /** A new row that agrees with the history merges into rows none of which changed. */
  lemma AgreeingRowUnchanged<V(!new)>(row: Row<V>, oldRows: seq<Row<V>>, on: seq<string>, oldColumn: string,
                                      newColumn: string, rounded: V -> int)
    requires Agrees(row, oldRows, on, oldColumn, newColumn, rounded)
    ensures var last := JoinRow(row, oldRows, on, oldColumn);
            forall k :: 0 <= k < |last| ==> !Changed(last[k], newColumn, rounded)
  {
    var ms := Matching(row, oldRows, on);
    assert JoinRow(row, oldRows, on, oldColumn) == Map(ms, o => Joined(row, OldValue(o, oldColumn)));
  }

  /**
   * Reloading what is stored changes nothing: when every new row matches some
   * old row and every old row it matches holds the same rounded value, the
   * change set is empty (lines 171-182).
   */
  lemma {:induction false} ReloadIsEmpty<V(!new)>(rows: seq<Row<V>>, oldRows: seq<Row<V>>, on: seq<string>,
                                               oldColumn: string, newColumn: string, rounded: V -> int)
    requires forall i :: 0 <= i < |rows| ==> Agrees(rows[i], oldRows, on, oldColumn, newColumn, rounded)
    ensures ChangeSet(LeftJoin(rows, oldRows, on, oldColumn), newColumn, rounded) == []
    decreases |rows|
  {
    if rows != [] {
      var n := |rows| - 1;
      var prefix := rows[..n];
      assert forall i :: 0 <= i < n ==> prefix[i] == rows[i];
      ReloadIsEmpty(prefix, oldRows, on, oldColumn, newColumn, rounded);
      var init := LeftJoin(prefix, oldRows, on, oldColumn);
      var last := JoinRow(rows[n], oldRows, on, oldColumn);
      var joined := LeftJoin(rows, oldRows, on, oldColumn);
      LeftJoinSnoc(rows, oldRows, on, oldColumn);
      AgreeingRowUnchanged(rows[n], oldRows, on, oldColumn, newColumn, rounded);
      forall i | 0 <= i < |joined| ensures !Changed(joined[i], newColumn, rounded) {
        if i < |init| {
          assert joined[i] == init[i];
          assert init[i] !in ChangeSet(init, newColumn, rounded);
        } else {
          assert joined[i] == last[i - |init|];
        }
      }
      FilterNone(joined, j => Changed(j, newColumn, rounded));
    }
  }

  // ---------------------------------------------------------------------------
  // compare_and_upload, upsert, truncate_and_upload, upload: what reaches the
  // database and the mailbox

  /** A write through the connection: `df_to_sql` appends, `df_sql_upsert` merges on `keys`. */
  datatype Upload<V> = AppendRows(rows: seq<Row<V>>) | UpsertRows(rows: seq<Row<V>>, keys: seq<string>)

  /** What an operation asks of the outside world, in order. */
  datatype Effect<V> =
    | Truncate
    | Write(upload: Upload<V>)
    | Email(fundamental: string, preview: seq<map<string, Option<V>>>)

  /** A column pandas cannot find (a `KeyError`). */
  datatype CompareError = KeyError(column: string)

  /** The notification switch: `os.getenv("SEND_EMAIL") == "True" and flag`. */
  predicate Notify(sendEmailEnv: Option<string>, flag: bool)
  {
    sendEmailEnv == Some("True") && flag
  }

  /** A row as the notification shows it: every value present. */
  function Preview<V>(row: Row<V>): (r: map<string, Option<V>>)
    ensures r.Keys == row.Keys
    ensures forall c :: c in r ==> r[c] == Some(row[c])
  {
    map c | c in row :: Some(row[c])
  }

  /** `df_final[cols2join + [old, new]]` on one merged row: keys, the stored value and the new one. */
  function PreviewJoined<V>(j: Joined<V>, join: seq<string>, oldColumn: string, newColumn: string)
    : (r: map<string, Option<V>>)
    ensures oldColumn in r && r[oldColumn] == j.prior
    ensures forall c :: c in r && c != oldColumn ==> (c in join || c == newColumn) && c in j.row && r[c] == Some(j.row[c])
    ensures forall c :: (c in join || c == newColumn) && c in j.row && c != oldColumn ==> c in r
  {
    (map c | (c in join || c == newColumn) && c in j.row :: Some(j.row[c]))[oldColumn := j.prior]
  }

  /** The notification for the first fifty rows (`head(50)`), or none. */
  function Notice<V>(notify: bool, fundamental: string, preview: seq<map<string, Option<V>>>): (r: seq<Effect<V>>)
    ensures notify <==> r != []
    ensures notify ==> r == [Email(fundamental, Head(preview, 50))]
  {
    if notify then [Email(fundamental, Head(preview, 50))] else []
  }

  /** The columns whose absence raises before the comparison (lines 168, 171-178), in the order pandas meets them. */
  function ColumnError(newColumns: seq<string>, oldColumns: seq<string>, keep: seq<string>, join: seq<string>,
                       oldColumnName: string, newColumnName: string): (r: Option<string>)
    ensures r.None? <==>
            && (forall c :: c in keep ==> c in newColumns)
            && (forall c :: c in join ==> c in keep)
            && newColumnName in keep && newColumnName !in oldColumns
            && oldColumnName in oldColumns && oldColumnName !in keep
    ensures r.Some? ==> || (r.value in keep && r.value !in newColumns)
                        || (r.value in join && r.value !in keep)
                        || r.value == newColumnName || r.value == oldColumnName
  {
    var absent := Filter(keep, c => c !in newColumns);
    var unjoinable := Filter(join, c => c !in keep);
    if absent != [] then Some(absent[0])
    else if unjoinable != [] then Some(unjoinable[0])
    else if newColumnName !in keep || newColumnName in oldColumns then Some(newColumnName)
    else if oldColumnName !in oldColumns || oldColumnName in keep then Some(oldColumnName)
    else None
  }

  /** The rows that reach the database: each merged row's new part, `df_final[cols2keep]` (line 187). */
  function NewParts<V>(changes: seq<Joined<V>>): (r: seq<Row<V>>)
    ensures |r| == |changes|
    ensures forall i :: 0 <= i < |r| ==> r[i] == changes[i].row
  {
    Map(changes, (j: Joined<V>) => j.row)
  }

  /** The change set of `compare_and_upload` once its columns are known to exist (lines 168-179). */
  function Changes<V(==,!new)>(newRows: seq<Row<V>>, oldRows: seq<Row<V>>, keep: seq<string>, join: seq<string>,
                               oldColumnName: string, newColumnName: string, rounded: V -> int): (r: seq<Joined<V>>)
    ensures forall j :: j in r ==> Changed(j, newColumnName, rounded) && forall c :: c in j.row ==> c in keep
  {
    var tmp := Map(newRows, row => Project(row, keep));
    var joined := LeftJoin(tmp, oldRows, join, oldColumnName);
    assert forall j :: j in joined ==> forall c :: c in j.row ==> c in keep by {
      LeftJoinRows(tmp, oldRows, join, oldColumnName);
    }
    ChangeSet(joined, newColumnName, rounded)
  }

  /** Every merged row carries one of the new rows. */
  lemma {:induction false} LeftJoinRows<V(!new)>(rows: seq<Row<V>>, oldRows: seq<Row<V>>, on: seq<string>, oldColumn: string)
    ensures forall j :: j in LeftJoin(rows, oldRows, on, oldColumn) ==> j.row in rows
    decreases |rows|
  {
    if rows != [] {
      var n := |rows| - 1;
      LeftJoinRows(rows[..n], oldRows, on, oldColumn);
      LeftJoinSnoc(rows, oldRows, on, oldColumn);
      assert forall x :: x in rows[..n] ==> x in rows;
    }
  }

  /**
   * What `compare_and_upload` does with a change set (lines 181-213): nothing
   * when it is empty; otherwise `df_final[cols2keep]` fails on a column both
   * frames hold outside the join (pandas suffixed it), or the rows are
   * appended, or upserted on `cols_to_compare` when that is given and
   * non-empty, and the first fifty are announced.
   */
  function Deliver<V>(changes: seq<Joined<V>>, overlap: seq<string>, join: seq<string>, oldColumnName: string,
                      newColumnName: string, colsToCompare: Option<seq<string>>, notify: bool, fundamental: string)
    : (r: Result<seq<Effect<V>>, CompareError>)
    ensures changes == [] <==> r == Success([])
    ensures r.Failure? <==> changes != [] && overlap != []
    ensures r.Failure? ==> r.error.column in overlap
    ensures r.Success? && r.value != [] ==>
              && r.value[0].Write?
              && r.value[0].upload.rows == NewParts(changes)
              && (r.value[0].upload.UpsertRows? <==> colsToCompare.Some? && colsToCompare.value != [])
              && (r.value[0].upload.UpsertRows? ==> r.value[0].upload.keys == colsToCompare.value)
              && (|r.value| == 2 <==> notify)
              && |r.value| <= 2
              && (notify ==> r.value[1].Email? && r.value[1].fundamental == fundamental
                             && |r.value[1].preview| == |Head(changes, 50)|
                             && forall i :: 0 <= i < |r.value[1].preview| ==>
                                  r.value[1].preview[i] == PreviewJoined(changes[i], join, oldColumnName, newColumnName))
  {
    if changes == [] then Success([])
    else if overlap != [] then Failure(KeyError(overlap[0]))
    else
      var rows := NewParts(changes);
      var upload := if colsToCompare.None? || colsToCompare.value == [] then AppendRows(rows)
                    else UpsertRows(rows, colsToCompare.value);
      var preview := Map(changes, j => PreviewJoined(j, join, oldColumnName, newColumnName));
      Success([Write(upload)] + Notice(notify, fundamental, preview))
  }

  /**
   * `compare_and_upload` (lines 149-213): merge the new rows, cut to the
   * source table's columns, with the stored rows on the join columns; keep
   * those whose rounded value differs or has no stored counterpart, and
   * deliver them. The columns pandas would not find raise first.
   */
  function CompareAndUpload<V(==,!new)>(newColumns: seq<string>, newRows: seq<Row<V>>, oldColumns: seq<string>,
                                        oldRows: seq<Row<V>>, sourceColumns: seq<string>, oldColumnName: string,
                                        newColumnName: string, keepFirstCol: bool, colsToCompare: Option<seq<string>>,
                                        shouldSendEmail: bool, sendEmailEnv: Option<string>, fundamental: string,
                                        rounded: V -> int): (r: Result<seq<Effect<V>>, CompareError>)
    ensures var keep := ColsToKeep(sourceColumns, keepFirstCol);
            var join := ColsToJoin(oldColumns, newColumnName);
            var missing := ColumnError(newColumns, oldColumns, keep, join, oldColumnName, newColumnName);
            && (missing.Some? ==> r == Failure(KeyError(missing.value)))
            && (missing.None? ==>
                  var changes := Changes(newRows, oldRows, keep, join, oldColumnName, newColumnName, rounded);
                  r == Deliver(changes, Filter(keep, c => c in oldColumns && c !in join), join, oldColumnName,
                               newColumnName, colsToCompare, Notify(sendEmailEnv, shouldSendEmail), fundamental))
    // only the source table's columns reach the database (line 187)
    ensures r.Success? && r.value != [] ==>
              r.value[0].Write? &&
              forall row :: row in r.value[0].upload.rows ==> forall c :: c in row ==> c in ColsToKeep(sourceColumns, keepFirstCol)
  {
    var keep := ColsToKeep(sourceColumns, keepFirstCol);
    var join := ColsToJoin(oldColumns, newColumnName);
    var missing := ColumnError(newColumns, oldColumns, keep, join, oldColumnName, newColumnName);
    if missing.Some? then Failure(KeyError(missing.value))
    else
      var changes := Changes(newRows, oldRows, keep, join, oldColumnName, newColumnName, rounded);
      Deliver(changes, Filter(keep, c => c in oldColumns && c !in join), join, oldColumnName, newColumnName,
              colsToCompare, Notify(sendEmailEnv, shouldSendEmail), fundamental)
  }

  /** Reloading stored values writes nothing and notifies no one (lines 177-182, 212-213). */
  lemma ReloadWritesNothing<V(!new)>(newColumns: seq<string>, newRows: seq<Row<V>>, oldColumns: seq<string>,
                                     oldRows: seq<Row<V>>, sourceColumns: seq<string>, oldColumnName: string,
                                     newColumnName: string, keepFirstCol: bool, colsToCompare: Option<seq<string>>,
                                     shouldSendEmail: bool, sendEmailEnv: Option<string>, fundamental: string,
                                     rounded: V -> int)
    requires var keep := ColsToKeep(sourceColumns, keepFirstCol);
             var join := ColsToJoin(oldColumns, newColumnName);
             && ColumnError(newColumns, oldColumns, keep, join, oldColumnName, newColumnName).None?
             && forall i :: 0 <= i < |newRows| ==>
                  Agrees(Project(newRows[i], keep), oldRows, join, oldColumnName, newColumnName, rounded)
    ensures CompareAndUpload(newColumns, newRows, oldColumns, oldRows, sourceColumns, oldColumnName, newColumnName,
                             keepFirstCol, colsToCompare, shouldSendEmail, sendEmailEnv, fundamental, rounded)
            == Success([])
  {
    var keep := ColsToKeep(sourceColumns, keepFirstCol);
    var join := ColsToJoin(oldColumns, newColumnName);
    var tmp := Map(newRows, row => Project(row, keep));
    ReloadIsEmpty(tmp, oldRows, join, oldColumnName, newColumnName, rounded);
  }

  /**
   * Against an empty history every new row, cut to the source table's
   * columns, is written, in order (lines 168-194).
   */
  lemma FirstLoadWritesAll<V(!new)>(newColumns: seq<string>, newRows: seq<Row<V>>, oldColumns: seq<string>,
                                    sourceColumns: seq<string>, oldColumnName: string, newColumnName: string,
                                    keepFirstCol: bool, colsToCompare: Option<seq<string>>, shouldSendEmail: bool,
                                    sendEmailEnv: Option<string>, fundamental: string, rounded: V -> int)
    requires var keep := ColsToKeep(sourceColumns, keepFirstCol);
             var join := ColsToJoin(oldColumns, newColumnName);
             && ColumnError(newColumns, oldColumns, keep, join, oldColumnName, newColumnName).None?
             && (forall c :: c in keep ==> c !in oldColumns || c in join)
             && newRows != []
    ensures var r := CompareAndUpload(newColumns, newRows, oldColumns, [], sourceColumns, oldColumnName,
                                      newColumnName, keepFirstCol, colsToCompare, shouldSendEmail, sendEmailEnv,
                                      fundamental, rounded);
            && r.Success? && r.value != []
            && r.value[0].Write?
            && r.value[0].upload.rows == Map(newRows, row => Project(row, ColsToKeep(sourceColumns, keepFirstCol)))
  {
    var keep := ColsToKeep(sourceColumns, keepFirstCol);
    var join := ColsToJoin(oldColumns, newColumnName);
    var tmp := Map(newRows, row => Project(row, keep));
    EmptyHistoryKeepsAll(tmp, join, oldColumnName, newColumnName, rounded);
    var changes := Changes(newRows, [], keep, join, oldColumnName, newColumnName, rounded);
    assert changes == Map(tmp, r => Joined(r, None));
    assert NewParts(changes) == tmp;
    FilterNone(keep, c => c in oldColumns && c !in join);
  }

  /** A new row with no stored counterpart is always written (lines 171-194). */
  lemma UnmatchedRowWritten<V(!new)>(newColumns: seq<string>, newRows: seq<Row<V>>, oldColumns: seq<string>,
                                     oldRows: seq<Row<V>>, sourceColumns: seq<string>, oldColumnName: string,
                                     newColumnName: string, keepFirstCol: bool, colsToCompare: Option<seq<string>>,
                                     shouldSendEmail: bool, sendEmailEnv: Option<string>, fundamental: string,
                                     rounded: V -> int, i: nat)
    requires var keep := ColsToKeep(sourceColumns, keepFirstCol);
             var join := ColsToJoin(oldColumns, newColumnName);
             && ColumnError(newColumns, oldColumns, keep, join, oldColumnName, newColumnName).None?
             && (forall c :: c in keep ==> c !in oldColumns || c in join)
             && i < |newRows| && Matching(Project(newRows[i], keep), oldRows, join) == []
    ensures var r := CompareAndUpload(newColumns, newRows, oldColumns, oldRows, sourceColumns, oldColumnName,
                                      newColumnName, keepFirstCol, colsToCompare, shouldSendEmail, sendEmailEnv,
                                      fundamental, rounded);
            && r.Success? && r.value != [] && r.value[0].Write?
            && Project(newRows[i], ColsToKeep(sourceColumns, keepFirstCol)) in r.value[0].upload.rows
  {
    var keep := ColsToKeep(sourceColumns, keepFirstCol);
    var join := ColsToJoin(oldColumns, newColumnName);
    var tmp := Map(newRows, row => Project(row, keep));
    UnmatchedKept(tmp, oldRows, join, oldColumnName, newColumnName, rounded, i);
    var changes := Changes(newRows, oldRows, keep, join, oldColumnName, newColumnName, rounded);
    var k :| 0 <= k < |changes| && changes[k] == Joined(tmp[i], None);
    assert NewParts(changes)[k] == tmp[i];
    FilterNone(keep, c => c in oldColumns && c !in join);
  }

  /**
   * `upsert` (lines 215-254): merge the rows on `match_columns`, then announce
   * the last fifty under the table's name when the row count moved. The two
   * counts are read from the database around the write; here they are inputs.
   */
  function Upsert<V>(rows: seq<Row<V>>, matchColumns: seq<string>, tableName: string, countBefore: int,
                     countAfter: int, sendEmailEnv: Option<string>): (r: seq<Effect<V>>)
    ensures |r| >= 1 && r[0] == Write(UpsertRows(rows, matchColumns))
    ensures |r| == 2 <==> sendEmailEnv == Some("True") && countBefore != countAfter
    ensures |r| == 2 ==> r[1] == Email(tableName, Map(Tail(rows, 50), Preview))
    ensures |r| <= 2
  {
    [Write(UpsertRows(rows, matchColumns))]
    + (if sendEmailEnv == Some("True") && countBefore != countAfter
       then [Email(tableName, Map(Tail(rows, 50), Preview))] else [])
  }

  /** `upload` (lines 284-308): append the rows, announce the first fifty. */
  function UploadRows<V>(rows: seq<Row<V>>, shouldSendEmail: bool, sendEmailEnv: Option<string>, fundamental: string)
    : (r: seq<Effect<V>>)
    ensures |r| >= 1 && r[0] == Write(AppendRows(rows))
    ensures |r| == 2 <==> Notify(sendEmailEnv, shouldSendEmail)
    ensures |r| <= 2 && (|r| == 2 ==> r[1].Email? && |r[1].preview| <= 50)
    ensures |r| == 2 ==> r[1] == Email(fundamental, Map(Head(rows, 50), Preview))
  {
    var preview := Map(rows, Preview);
    assert Head(preview, 50) == Map(Head(rows, 50), Preview);
    [Write(AppendRows(rows))] + Notice(Notify(sendEmailEnv, shouldSendEmail), fundamental, preview)
  }

  /** `truncate_and_upload` (lines 256-282): empty the table, then upload. */
  function TruncateAndUpload<V>(rows: seq<Row<V>>, shouldSendEmail: bool, sendEmailEnv: Option<string>,
                                fundamental: string): (r: seq<Effect<V>>)
    ensures |r| >= 2 && r[0] == Truncate && r[1..] == UploadRows(rows, shouldSendEmail, sendEmailEnv, fundamental)
  {
    [Truncate] + UploadRows(rows, shouldSendEmail, sendEmailEnv, fundamental)
  }

  /** No effect is an upsert. */
  predicate AppendOnly<V>(effects: seq<Effect<V>>)
  {
    forall k :: 0 <= k < |effects| ==> !(effects[k].Write? && effects[k].upload.UpsertRows?)
  }

  /** The table after truncations and appends; notifications leave it alone. */
  function Replay<V>(table: seq<Row<V>>, effects: seq<Effect<V>>): seq<Row<V>>
    requires AppendOnly(effects)
    decreases |effects|
  {
    if effects == [] then table
    else
      var e := effects[0];
      var next := match e
        case Truncate => []
        case Write(u) => table + u.rows
        case Email(_, _) => table;
      Replay(next, effects[1..])
  }

  /** Uploading appends the rows to what the table held (line 297). */
  lemma UploadAppends<V>(table: seq<Row<V>>, rows: seq<Row<V>>, shouldSendEmail: bool, sendEmailEnv: Option<string>,
                         fundamental: string)
    ensures var effects := UploadRows(rows, shouldSendEmail, sendEmailEnv, fundamental);
            AppendOnly(effects) && Replay(table, effects) == table + rows
  {
    var effects := UploadRows(rows, shouldSendEmail, sendEmailEnv, fundamental);
    assert Replay(table, effects) == Replay(table + rows, effects[1..]);
    if |effects| == 2 {
      assert Replay(table + rows, effects[1..]) == Replay(table + rows, effects[2..]);
    }
  }

  /** Truncating and uploading leaves exactly the new rows, whatever the table held (lines 269-271). */
  lemma TruncateReplaces<V>(table: seq<Row<V>>, rows: seq<Row<V>>, shouldSendEmail: bool,
                            sendEmailEnv: Option<string>, fundamental: string)
    ensures var effects := TruncateAndUpload(rows, shouldSendEmail, sendEmailEnv, fundamental);
            AppendOnly(effects) && Replay(table, effects) == rows
  {
    var effects := TruncateAndUpload(rows, shouldSendEmail, sendEmailEnv, fundamental);
    UploadAppends([], rows, shouldSendEmail, sendEmailEnv, fundamental);
    assert Replay(table, effects) == Replay([], effects[1..]);
    assert [] + rows == rows;
  }
}
