/**
 * Reading the exported CSV back. The export wraps every field in double
 * quotes but does not double the quotes inside a field, as section 2, rule 7
 * of RFC 4180 asks. This module gives a strict reader of fully quoted CSV
 * with line-feed row breaks (not all of RFC 4180: no unquoted fields, no CRLF), shows
 * that the export as written can be ambiguous and can give lines that reader
 * rejects, and proves that the
 * export with quotes doubled reads back as exactly the rows of the board.
 */
module CsvQuoting {
  import opened Wrappers
  import opened Tasks
  import opened Csv

  /** Put `prefix` in front of a field that has been read, if one has. */
  function PrependField(prefix: string, r: Option<(string, string)>): (p: Option<(string, string)>)
    ensures p.Some? <==> r.Some?
    ensures p.Some? ==> p.value == (prefix + r.value.0, r.value.1)
  {
    match r
    case None => None
    case Some((f, rest)) => Some((prefix + f, rest))
  }

  /** The rest of a quoted field after its opening quote: the field's text and what follows the closing quote. */
  function ParseQuoted(s: string): (r: Option<(string, string)>)
    ensures r.Some? ==> |r.value.1| < |s|
    decreases |s|
  {
    if |s| == 0 then None
    else if s[0] == '"' then
      if |s| >= 2 && s[1] == '"' then PrependField("\"", ParseQuoted(s[2..]))
      else Some(("", s[1..]))
    else PrependField([s[0]], ParseQuoted(s[1..]))
  }

  /** Put field `f` at the head of the first row that has been read, if any has. */
  function AddField(f: string, r: Option<seq<seq<string>>>): (p: Option<seq<seq<string>>>)
    requires r.Some? ==> |r.value| >= 1
    ensures p.Some? <==> r.Some?
    ensures p.Some? ==> |p.value| == |r.value| && p.value[0] == [f] + r.value[0] && p.value[1..] == r.value[1..]
  {
    match r
    case None => None
    case Some(rows) => Some([[f] + rows[0]] + rows[1..])
  }

  /**
   * A whole document of quoted fields: fields separated by commas, rows by
   * line feeds. None when the text is not of that form; this includes text
   * that RFC 4180 itself accepts, with unquoted fields or CRLF row breaks.
   */
  function ParseDocument(s: string): (r: Option<seq<seq<string>>>)
    ensures r.Some? ==> |r.value| >= 1 && |r.value[0]| >= 1
    decreases |s|
  {
    if |s| == 0 || s[0] != '"' then None
    else
      match ParseQuoted(s[1..])
      case None => None
      case Some((f, rest)) =>
        if |rest| == 0 then Some([[f]])
        else if rest[0] == ',' then AddField(f, ParseDocument(rest[1..]))
        else if rest[0] == '\n' then Prepend([f], ParseDocument(rest[1..]))
        else None
  }

  /**
   * The export as written can be ambiguous: a board with one task that holds
   * quotes, a comma and a line feed gives the same file as a board with two
   * plain tasks.
   */
  lemma ExportAmbiguous()
    ensures var quoted: TaskSet := PriorityTasks(["x\"\n\"High\",\"y"], [], []);
      var plain: TaskSet := PriorityTasks(["x", "y"], [], []);
      quoted != plain && ExportCsv(quoted) == ExportCsv(plain)
  {
    var task := "x\"\n\"High\",\"y";
    var quoted: TaskSet := PriorityTasks([task], [], []);
    var plain: TaskSet := PriorityTasks(["x", "y"], [], []);
    var header := "\"Priority\",\"Task\"";
    var x, y := CsvLine("High", "x"), CsvLine("High", "y");
    assert |quoted.highPriority| != |plain.highPriority|;
    assert ExpectedLines(quoted) == [header, CsvLine("High", task)] by {
      assert TaggedLines("High", [task]) == [CsvLine("High", task)];
    }
    assert ExpectedLines(plain) == [header, x, y] by {
      assert TaggedLines("High", ["x", "y"]) == [x, y];
    }
    assert CsvLine("High", task) == x + "\n" + y;
    JoinSplitLast(header, x, y, "\n");
  }

  /** Joining a last element that itself holds the separator reads like two elements. */
  lemma JoinSplitLast(a: string, b: string, c: string, sep: string)
    ensures Join([a, b + sep + c], sep) == Join([a, b, c], sep)
  {
    assert [a, b + sep + c][1..] == [b + sep + c];
    assert Join([a, b + sep + c], sep) == a + sep + (b + sep + c);
    JoinThree(a, b, c, sep);
  }

  /**
   * A task whose first double quote is followed by anything but a quote, a
   * comma or a line feed (`say "hi"`, say) gives a line that the strict reader
   * above rejects: it takes that quote as the end of the field.
   */
  lemma ExportUnreadable(tag: string, a: string, b: string)
    requires '"' !in tag && '"' !in a
    requires |b| > 0 && b[0] != '"' && b[0] != ',' && b[0] != '\n'
    ensures ParseDocument(CsvLine(tag, a + "\"" + b)) == None
  {
    var b' := b + "\"";
    var field := QuoteEscaped(a) + b';
    LineShape(tag, a, b);
    ParseFieldAt(tag, "," + field);
    assert ("," + field)[1..] == field;
    ParseFieldAt(a, b');
  }

  /** The line of a task holding a quote, cut at the task's first quote. */
  lemma LineShape(tag: string, a: string, b: string)
    requires '"' !in tag && '"' !in a
    ensures CsvLine(tag, a + "\"" + b) == QuoteEscaped(tag) + ("," + (QuoteEscaped(a) + (b + "\"")))
  {
    EscapeUnquoted(tag);
    EscapeUnquoted(a);
    var line := CsvLine(tag, a + "\"" + b);
    var shaped := QuoteEscaped(tag) + ("," + (QuoteEscaped(a) + (b + "\"")));
    assert |line| == |shaped|;
    forall k | 0 <= k < |line| ensures line[k] == shaped[k] {
    }
  }

  /** The task `say "hi"` is one such task. */
  lemma ExportUnreadableExample()
    ensures ParseDocument(CsvLine("High", "say \"hi\"")) == None
  {
    assert "say \"hi\"" == "say " + "\"" + "hi\"";
    ExportUnreadable("High", "say ", "hi\"");
  }

  /** A field with every double quote doubled (section 2, rule 7 of RFC 4180). */
  function Escape(v: string): (r: string)
    ensures |r| >= |v|
  {
    if |v| == 0 then ""
    else (if v[0] == '"' then "\"\"" else [v[0]]) + Escape(v[1..])
  }

  /** Text without double quotes is left as it is. */
  lemma EscapeUnquoted(v: string)
    requires '"' !in v
    ensures Escape(v) == v
  {
  }

  /** A quoted field with its quotes doubled. */
  function QuoteEscaped(v: string): string
  {
    "\"" + Escape(v) + "\""
  }

  function QuoteAllEscaped(row: seq<string>): (r: seq<string>)
    ensures |r| == |row| && forall k :: 0 <= k < |row| ==> r[k] == QuoteEscaped(row[k])
  {
    if |row| == 0 then [] else [QuoteEscaped(row[0])] + QuoteAllEscaped(row[1..])
  }

  function FormatRowEscaped(row: seq<string>): string
  {
    Join(QuoteAllEscaped(row), ",")
  }

  function FormatRowsEscaped(rows: seq<seq<string>>): (lines: seq<string>)
    ensures |lines| == |rows| && forall k :: 0 <= k < |rows| ==> lines[k] == FormatRowEscaped(rows[k])
  {
    if |rows| == 0 then [] else [FormatRowEscaped(rows[0])] + FormatRowsEscaped(rows[1..])
  }

  /** The export with quotes inside fields doubled; rows and their order are those of the export as written. */
  function ExportCsvEscaped(t: TaskSet): string
  {
    Join(FormatRowsEscaped(Rows(t)), "\n")
  }

  /** No task holds a double quote. */
  predicate UnquotedTasks(t: TaskSet)
  {
    forall p, k :: 0 <= k < |t.Get(p)| ==> '"' !in t.Get(p)[k]
  }

  /** Fields without double quotes are quoted the same way by both exports. */
  lemma {:induction false} QuoteAllUnquoted(row: seq<string>)
    requires forall j :: 0 <= j < |row| ==> '"' !in row[j]
    ensures QuoteAllEscaped(row) == QuoteAll(row)
  {
    forall j | 0 <= j < |row| ensures QuoteEscaped(row[j]) == Quote(row[j]) {
      EscapeUnquoted(row[j]);
    }
  }

  /** No field of any row holds a double quote. */
  predicate UnquotedRows(rows: seq<seq<string>>)
  {
    forall k, j :: 0 <= k < |rows| && 0 <= j < |rows[k]| ==> '"' !in rows[k][j]
  }

  lemma UnquotedAppend(a: seq<seq<string>>, b: seq<seq<string>>)
    requires UnquotedRows(a) && UnquotedRows(b)
    ensures UnquotedRows(a + b)
  {
    forall k, j | 0 <= k < |a + b| && 0 <= j < |(a + b)[k]| ensures '"' !in (a + b)[k][j] {
      if k < |a| {
        assert (a + b)[k] == a[k];
      } else {
        assert (a + b)[k] == b[k - |a|];
      }
    }
  }

  /** A bucket of tasks without double quotes gives rows without them. */
  lemma TaggedUnquoted(tag: string, tasks: seq<string>)
    requires '"' !in tag
    requires forall k :: 0 <= k < |tasks| ==> '"' !in tasks[k]
    ensures UnquotedRows(Tagged(tag, tasks))
  {
    var rows := Tagged(tag, tasks);
    forall k, j | 0 <= k < |rows| && 0 <= j < |rows[k]| ensures '"' !in rows[k][j] {
      assert rows[k] == [tag, tasks[k]];
    }
  }

  /** Every field of every row of a board without double quotes in its tasks is free of them. */
  lemma RowsUnquoted(t: TaskSet)
    requires UnquotedTasks(t)
    ensures UnquotedRows(Rows(t))
  {
    var header: seq<seq<string>> := [["Priority", "Task"]];
    assert UnquotedRows(header) by {
      assert forall j :: 0 <= j < |header[0]| ==> header[0][j] == "Priority" || header[0][j] == "Task";
    }
    assert t.highPriority == t.Get(High) && t.mediumPriority == t.Get(Medium) && t.lowPriority == t.Get(Low);
    TaggedUnquoted("High", t.highPriority);
    TaggedUnquoted("Medium", t.mediumPriority);
    TaggedUnquoted("Low", t.lowPriority);
    var h, m, l := Tagged("High", t.highPriority), Tagged("Medium", t.mediumPriority), Tagged("Low", t.lowPriority);
    UnquotedAppend(header, h);
    UnquotedAppend(header + h, m);
    UnquotedAppend(header + h + m, l);
  }

  /** For a board without double quotes in its tasks, the corrected export is the export as written. */
  lemma EscapedMatchesExport(t: TaskSet)
    requires UnquotedTasks(t)
    ensures ExportCsvEscaped(t) == ExportCsv(t)
  {
    var rows := Rows(t);
    RowsUnquoted(t);
    forall k | 0 <= k < |rows| ensures FormatRowEscaped(rows[k]) == FormatRow(rows[k]) {
      QuoteAllUnquoted(rows[k]);
    }
    assert FormatRowsEscaped(rows) == FormatRows(rows);
  }

  /** A doubled quote inside a field reads as one quote. */
  lemma QuotedDouble(t: string)
    ensures ParseQuoted("\"\"" + t) == PrependField("\"", ParseQuoted(t))
  {
    assert ("\"\"" + t)[2..] == t;
  }

  /** Any other character inside a field reads as itself. */
  lemma QuotedPlain(c: char, t: string)
    requires c != '"'
    ensures ParseQuoted([c] + t) == PrependField([c], ParseQuoted(t))
  {
    assert ([c] + t)[1..] == t;
  }

  /** A quote not followed by another one closes the field. */
  lemma QuotedClose(t: string)
    requires |t| == 0 || t[0] != '"'
    ensures ParseQuoted("\"" + t) == Some(("", t))
  {
    assert ("\"" + t)[1..] == t;
  }

  lemma AppendAssoc(a: string, b: string, c: string)
    ensures a + b + c == a + (b + c)
  {
  }

  /** The escaped text of a non-empty field is the escaped first character followed by the escaped rest. */
  lemma EscapeSplit(v: string, rest: string)
    requires |v| > 0
    ensures Escape(v) + "\"" + rest == (if v[0] == '"' then "\"\"" else [v[0]]) + (Escape(v[1..]) + "\"" + rest)
  {
    var h := if v[0] == '"' then "\"\"" else [v[0]];
    var e := Escape(v[1..]);
    assert Escape(v) == h + e;
    AppendAssoc(h, e, "\"");
    AppendAssoc(h, e + "\"", rest);
  }

  /** One step of reading an escaped field: its first character, or doubled quote, is read first. */
  lemma ParseEscapedStep(v: string, rest: string)
    requires |v| > 0
    requires ParseQuoted(Escape(v[1..]) + "\"" + rest) == Some((v[1..], rest))
    ensures ParseQuoted(Escape(v) + "\"" + rest) == Some((v, rest))
  {
    var more := Escape(v[1..]) + "\"" + rest;
    EscapeSplit(v, rest);
    if v[0] == '"' {
      calc {
        ParseQuoted(Escape(v) + "\"" + rest);
        ParseQuoted("\"\"" + more);
        { QuotedDouble(more); }
        PrependField("\"", Some((v[1..], rest)));
        { assert "\"" + v[1..] == v; }
        Some((v, rest));
      }
    } else {
      calc {
        ParseQuoted(Escape(v) + "\"" + rest);
        ParseQuoted([v[0]] + more);
        { QuotedPlain(v[0], more); }
        PrependField([v[0]], Some((v[1..], rest)));
        { assert [v[0]] + v[1..] == v; }
        Some((v, rest));
      }
    }
  }

  /** A doubled-quote field followed by its closing quote reads back as the field. */
  lemma {:induction false} ParseEscaped(v: string, rest: string)
    requires |rest| == 0 || rest[0] != '"'
    ensures ParseQuoted(Escape(v) + "\"" + rest) == Some((v, rest))
  {
    if |v| == 0 {
      assert Escape(v) + "\"" + rest == "\"" + rest;
      QuotedClose(rest);
    } else {
      ParseEscaped(v[1..], rest);
      ParseEscapedStep(v, rest);
    }
  }

  /** A row in front of the rows read from the rest of the text, if those could be read. */
  function Prepend(row: seq<string>, rows: Option<seq<seq<string>>>): (r: Option<seq<seq<string>>>)
    ensures r.Some? <==> rows.Some?
    ensures r.Some? ==> |r.value| >= 1 && r.value[0] == row && r.value[1..] == rows.value
  {
    match rows
    case None => None
    case Some(rs) => Some([row] + rs)
  }

  /** A quoted field at the head of the text is read as the field, with the text after its closing quote left over. */
  lemma ParseFieldAt(f: string, rest: string)
    requires |rest| == 0 || rest[0] != '"'
    ensures |rest| == 0 ==> ParseDocument(QuoteEscaped(f) + rest) == Some([[f]])
    ensures |rest| > 0 && rest[0] == ',' ==> ParseDocument(QuoteEscaped(f) + rest) == AddField(f, ParseDocument(rest[1..]))
    ensures |rest| > 0 && rest[0] == '\n' ==> ParseDocument(QuoteEscaped(f) + rest) == Prepend([f], ParseDocument(rest[1..]))
    ensures |rest| > 0 && rest[0] != ',' && rest[0] != '\n' ==> ParseDocument(QuoteEscaped(f) + rest) == None
  {
    var s := QuoteEscaped(f) + rest;
    AppendAssoc("\"" + Escape(f), "\"", rest);
    AppendAssoc("\"", Escape(f), "\"" + rest);
    AppendAssoc(Escape(f), "\"", rest);
    assert s == "\"" + (Escape(f) + "\"" + rest);
    assert s[0] == '"' && s[1..] == Escape(f) + "\"" + rest;
    ParseEscaped(f, rest);
  }

  /** A row of several fields is its first quoted field, a comma and the rest of the row. */
  lemma FormatRowSplit(row: seq<string>, tail: string)
    requires |row| >= 2
    ensures FormatRowEscaped(row) + tail == QuoteEscaped(row[0]) + ("," + (FormatRowEscaped(row[1..]) + tail))
  {
    var q := QuoteAllEscaped(row);
    assert q[1..] == QuoteAllEscaped(row[1..]);
    assert FormatRowEscaped(row) == QuoteEscaped(row[0]) + "," + FormatRowEscaped(row[1..]);
    AppendAssoc(QuoteEscaped(row[0]) + ",", FormatRowEscaped(row[1..]), tail);
    AppendAssoc(QuoteEscaped(row[0]), ",", FormatRowEscaped(row[1..]) + tail);
  }

  /** Adding a field to a row read alone, or to a row read in front of others. */
  lemma AddFieldToRow(f: string, row: seq<string>, r: Option<seq<seq<string>>>)
    ensures AddField(f, Some([row])) == Some([[f] + row])
    ensures AddField(f, Prepend(row, r)) == Prepend([f] + row, r)
  {
    var one := AddField(f, Some([row])).value;
    assert |one| == 1 && one[0] == [f] + row;
    assert one == [[f] + row];
    if r.Some? {
      var got := AddField(f, Prepend(row, r)).value;
      assert got[0] == [f] + row && got[1..] == r.value;
      assert got == [[f] + row] + r.value;
    }
  }

  /** A formatted row followed by the end of the text, or by a line feed and more rows, reads back as that row first. */
  lemma {:induction false} ParseRow(row: seq<string>, tail: string)
    requires |row| >= 1
    requires |tail| == 0 || tail[0] == '\n'
    ensures |tail| == 0 ==> ParseDocument(FormatRowEscaped(row) + tail) == Some([row])
    ensures |tail| > 0 ==> ParseDocument(FormatRowEscaped(row) + tail) == Prepend(row, ParseDocument(tail[1..]))
  {
    if |row| == 1 {
      assert FormatRowEscaped(row) == QuoteEscaped(row[0]);
      ParseFieldAt(row[0], tail);
      assert row == [row[0]];
    } else {
      var more := FormatRowEscaped(row[1..]) + tail;
      FormatRowSplit(row, tail);
      ParseFieldAt(row[0], "," + more);
      assert ("," + more)[1..] == more;
      ParseRow(row[1..], tail);
      if |tail| == 0 {
        AddFieldToRow(row[0], row[1..], None);
      } else {
        AddFieldToRow(row[0], row[1..], ParseDocument(tail[1..]));
      }
      assert [row[0]] + row[1..] == row;
    }
  }

  /** Rows of at least one field each, formatted and joined, read back as the same rows. */
  lemma {:induction false} ParseRows(rows: seq<seq<string>>)
    requires |rows| >= 1
    requires forall k :: 0 <= k < |rows| ==> |rows[k]| >= 1
    ensures ParseDocument(Join(FormatRowsEscaped(rows), "\n")) == Some(rows)
  {
    var lines := FormatRowsEscaped(rows);
    if |rows| == 1 {
      ParseRow(rows[0], "");
      assert lines[0] + "" == lines[0] == Join(lines, "\n");
      assert rows == [rows[0]];
    } else {
      assert lines[1..] == FormatRowsEscaped(rows[1..]);
      var tail := "\n" + Join(lines[1..], "\n");
      assert Join(lines, "\n") == lines[0] + tail;
      ParseRow(rows[0], tail);
      assert tail[1..] == Join(lines[1..], "\n");
      ParseRows(rows[1..]);
      assert [rows[0]] + rows[1..] == rows;
    }
  }

  /** The corrected export reads back as exactly the rows of the board, whatever the tasks contain. */
  lemma ExportEscapedReadsBack(t: TaskSet)
    ensures ParseDocument(ExportCsvEscaped(t)) == Some(Rows(t))
  {
    ParseRows(Rows(t));
  }

  /** The tasks of the two-field rows that carry `tag`, in row order. */
  function TaggedTasks(rows: seq<seq<string>>, tag: string): seq<string>
  {
    if |rows| == 0 then []
    else (if |rows[0]| == 2 && rows[0][0] == tag then [rows[0][1]] else []) + TaggedTasks(rows[1..], tag)
  }

  lemma {:induction false} TaggedTasksAppend(a: seq<seq<string>>, b: seq<seq<string>>, tag: string)
    ensures TaggedTasks(a + b, tag) == TaggedTasks(a, tag) + TaggedTasks(b, tag)
  {
    if |a| > 0 {
      assert (a + b)[1..] == a[1..] + b;
      TaggedTasksAppend(a[1..], b, tag);
    } else {
      assert a + b == b;
    }
  }

  lemma {:induction false} TaggedTasksOf(tag: string, other: string, tasks: seq<string>)
    ensures TaggedTasks(Tagged(tag, tasks), other) == if tag == other then tasks else []
  {
    if |tasks| > 0 {
      var rows := Tagged(tag, tasks);
      assert rows[0] == [tag, tasks[0]];
      assert rows[1..] == Tagged(tag, tasks[1..]);
      assert TaggedTasks(rows, other) ==
        (if tag == other then [tasks[0]] else []) + TaggedTasks(rows[1..], other);
      TaggedTasksOf(tag, other, tasks[1..]);
      assert [tasks[0]] + tasks[1..] == tasks;
    }
  }

  /** The board a reader rebuilds from the rows: each bucket is the tasks of the rows with its label. */
  function BoardOf(rows: seq<seq<string>>): TaskSet
  {
    PriorityTasks(TaggedTasks(rows, "High"), TaggedTasks(rows, "Medium"), TaggedTasks(rows, "Low"))
  }

  /** The header row is not a task of any bucket. */
  lemma HeaderCarriesNone(tag: string)
    requires tag != "Priority"
    ensures TaggedTasks([["Priority", "Task"]], tag) == []
  {
    var header: seq<seq<string>> := [["Priority", "Task"]];
    assert header[0][0] == "Priority";
    assert header[1..] == [];
  }

  /** The tasks under one label in four blocks of rows are those of each block, in block order. */
  lemma TaggedTasksBlocks(a: seq<seq<string>>, b: seq<seq<string>>, c: seq<seq<string>>, d: seq<seq<string>>, tag: string)
    ensures TaggedTasks(a + b + c + d, tag) ==
      TaggedTasks(a, tag) + TaggedTasks(b, tag) + TaggedTasks(c, tag) + TaggedTasks(d, tag)
  {
    TaggedTasksAppend(a + b + c, d, tag);
    TaggedTasksAppend(a + b, c, tag);
    TaggedTasksAppend(a, b, tag);
  }

  /** The tasks under one label are gathered from the three blocks of rows; the header row carries none. */
  lemma RowsByBlock(t: TaskSet, tag: string)
    requires tag != "Priority"
    ensures TaggedTasks(Rows(t), tag) == TaggedTasks(Tagged("High", t.highPriority), tag)
      + TaggedTasks(Tagged("Medium", t.mediumPriority), tag) + TaggedTasks(Tagged("Low", t.lowPriority), tag)
  {
    var header: seq<seq<string>> := [["Priority", "Task"]];
    var h, m, l := Tagged("High", t.highPriority), Tagged("Medium", t.mediumPriority), Tagged("Low", t.lowPriority);
    TaggedTasksBlocks(header, h, m, l, tag);
    HeaderCarriesNone(tag);
    assert [] + TaggedTasks(h, tag) == TaggedTasks(h, tag);
  }

  /** Reading the rows back gives the board: the header is skipped and every task returns to its bucket in order. */
  lemma RowsReadBack(t: TaskSet)
    ensures BoardOf(Rows(t)) == t
  {
    RowsByBlock(t, "High");
    RowsByBlock(t, "Medium");
    RowsByBlock(t, "Low");
    TaggedTasksOf("High", "High", t.highPriority);
    TaggedTasksOf("Medium", "High", t.mediumPriority);
    TaggedTasksOf("Low", "High", t.lowPriority);
    TaggedTasksOf("High", "Medium", t.highPriority);
    TaggedTasksOf("Medium", "Medium", t.mediumPriority);
    TaggedTasksOf("Low", "Medium", t.lowPriority);
    TaggedTasksOf("High", "Low", t.highPriority);
    TaggedTasksOf("Medium", "Low", t.mediumPriority);
    TaggedTasksOf("Low", "Low", t.lowPriority);
    assert TaggedTasks(Rows(t), "High") == t.highPriority + [] + [];
    assert TaggedTasks(Rows(t), "Medium") == [] + t.mediumPriority + [];
    assert TaggedTasks(Rows(t), "Low") == [] + [] + t.lowPriority;
    assert t.highPriority + [] + [] == t.highPriority;
    assert [] + t.mediumPriority + [] == t.mediumPriority;
    assert [] + [] + t.lowPriority == t.lowPriority;
  }

  /** Reading a file back into a board: None when it is not quoted CSV. */
  function ImportCsv(s: string): Option<TaskSet>
  {
    match ParseDocument(s)
    case None => None
    case Some(rows) => Some(BoardOf(rows))
  }

  /** The corrected export reads back as the board it was made from. */
  lemma ExportEscapedRoundTrip(t: TaskSet)
    ensures ImportCsv(ExportCsvEscaped(t)) == Some(t)
  {
    ExportEscapedReadsBack(t);
    RowsReadBack(t);
  }

  /** Different boards give different files under the corrected export. */
  lemma ExportEscapedInjective(t: TaskSet, u: TaskSet)
    requires ExportCsvEscaped(t) == ExportCsvEscaped(u)
    ensures t == u
  {
    ExportEscapedRoundTrip(t);
    ExportEscapedRoundTrip(u);
  }
}
