/**
 * `exportToCSV`: the board flattened into (priority, task) rows under a
 * header, every field wrapped in double quotes, fields joined by commas and
 * rows by line feeds. Nothing inside a field is escaped.
 */
module Csv {
  import opened Tasks

  /** `` `"${val}"` `` */
  function Quote(v: string): string
  {
    "\"" + v + "\""
  }

  /** `parts.join(sep)` */
  function Join(parts: seq<string>, sep: string): string
  {
    if |parts| == 0 then ""
    else if |parts| == 1 then parts[0]
    else parts[0] + sep + Join(parts[1..], sep)
  }

  /**
   * `join` builds its result left to right, appending the separator and the
   * next element to what it has so far; the recursive definition above agrees.
   */
  lemma {:induction false} JoinLeft(parts: seq<string>, sep: string)
    requires |parts| >= 2
    ensures Join(parts, sep) == Join(parts[..|parts| - 1], sep) + sep + parts[|parts| - 1]
  {
    var init := parts[..|parts| - 1];
    if |parts| > 2 {
      JoinLeft(parts[1..], sep);
      assert parts[1..][..|parts| - 2] == init[1..];
      assert init[0] == parts[0];
    } else {
      assert init == [parts[0]];
    }
  }

  /** `tasks.map((t) => [tag, t])` */
  function Tagged(tag: string, tasks: seq<string>): (rows: seq<seq<string>>)
    ensures |rows| == |tasks|
    ensures forall k :: 0 <= k < |tasks| ==> rows[k] == [tag, tasks[k]]
  {
    if |tasks| == 0 then [] else [[tag, tasks[0]]] + Tagged(tag, tasks[1..])
  }

  /** The `rows` array: the header, then the High, Medium and Low rows, each bucket in its order. */
  function Rows(t: TaskSet): (rows: seq<seq<string>>)
    ensures |rows| == 1 + |t.highPriority| + |t.mediumPriority| + |t.lowPriority|
    ensures rows[0] == ["Priority", "Task"]
    ensures forall k :: 0 <= k < |t.highPriority| ==>
      rows[1 + k] == ["High", t.highPriority[k]]
    ensures forall k :: 0 <= k < |t.mediumPriority| ==>
      rows[1 + |t.highPriority| + k] == ["Medium", t.mediumPriority[k]]
    ensures forall k :: 0 <= k < |t.lowPriority| ==>
      rows[1 + |t.highPriority| + |t.mediumPriority| + k] == ["Low", t.lowPriority[k]]
  {
    [["Priority", "Task"]]
      + Tagged("High", t.highPriority)
      + Tagged("Medium", t.mediumPriority)
      + Tagged("Low", t.lowPriority)
  }

  /** `row.map((val) => `"${val}"`)` */
  function QuoteAll(row: seq<string>): (r: seq<string>)
    ensures |r| == |row| && forall k :: 0 <= k < |row| ==> r[k] == Quote(row[k])
  {
    if |row| == 0 then [] else [Quote(row[0])] + QuoteAll(row[1..])
  }

  /** One line of the file: the quoted fields joined by commas. */
  function FormatRow(row: seq<string>): string
  {
    Join(QuoteAll(row), ",")
  }

  /** `rows.map(FormatRow)` */
  function FormatRows(rows: seq<seq<string>>): (lines: seq<string>)
    ensures |lines| == |rows| && forall k :: 0 <= k < |rows| ==> lines[k] == FormatRow(rows[k])
  {
    if |rows| == 0 then [] else [FormatRow(rows[0])] + FormatRows(rows[1..])
  }

  /** The text of `tasks.csv`. */
  function ExportCsv(t: TaskSet): (r: string)
    ensures r == Join(ExpectedLines(t), "\n")
  {
    FormattedRows(t);
    Join(FormatRows(Rows(t)), "\n")
  }

  /** The line the file holds for a (label, task) row: `"<label>","<task>"`. */
  function CsvLine(tag: string, task: string): string
  {
    "\"" + tag + "\",\"" + task + "\""
  }

  /** A two-field row is formatted as its CSV line. */
  lemma FormatPair(tag: string, task: string)
    ensures FormatRow([tag, task]) == CsvLine(tag, task)
  {
    var q := QuoteAll([tag, task]);
    assert q == [Quote(tag), Quote(task)];
    assert q[1..] == [Quote(task)];
    assert Join(q, ",") == Quote(tag) + "," + Quote(task);
  }

  /** Reading a text back as lines: the pieces between line feeds. */
  function SplitLines(s: string): (lines: seq<string>)
    ensures |lines| >= 1
  {
    if |s| == 0 then [""]
    else
      var rest := SplitLines(s[1..]);
      if s[0] == '\n' then [""] + rest else [[s[0]] + rest[0]] + rest[1..]
  }

  /** A line without a line feed, followed by a line feed, splits off as one line. */
  lemma {:induction false} SplitFirstLine(a: string, b: string)
    requires '\n' !in a
    ensures SplitLines(a + "\n" + b) == [a] + SplitLines(b)
  {
    if |a| == 0 {
      assert a + "\n" + b == "\n" + b;
      assert ("\n" + b)[1..] == b;
    } else {
      assert (a + "\n" + b)[1..] == a[1..] + "\n" + b;
      SplitFirstLine(a[1..], b);
      assert [a[0]] + a[1..] == a;
    }
  }

  /** A line with no line feed splits into itself. */
  lemma {:induction false} SplitSingleLine(a: string)
    requires '\n' !in a
    ensures SplitLines(a) == [a]
  {
    if |a| > 0 {
      SplitSingleLine(a[1..]);
      assert [a[0]] + a[1..] == a;
    }
  }

  /** Joining lines with line feeds and splitting again gives the lines back. */
  lemma {:induction false} SplitJoin(lines: seq<string>)
    requires |lines| >= 1
    requires forall k :: 0 <= k < |lines| ==> '\n' !in lines[k]
    ensures SplitLines(Join(lines, "\n")) == lines
  {
    if |lines| == 1 {
      SplitSingleLine(lines[0]);
    } else {
      SplitJoin(lines[1..]);
      SplitFirstLine(lines[0], Join(lines[1..], "\n"));
    }
  }

  /** No task of the board contains a line feed. */
  predicate SingleLineTasks(t: TaskSet)
  {
    forall p, k :: 0 <= k < |t.Get(p)| ==> '\n' !in t.Get(p)[k]
  }

  /** `"<label>","<task>"` for each task of a bucket, in order. */
  function TaggedLines(tag: string, tasks: seq<string>): (lines: seq<string>)
    ensures |lines| == |tasks|
    ensures forall k :: 0 <= k < |tasks| ==> lines[k] == CsvLine(tag, tasks[k])
  {
    if |tasks| == 0 then [] else [CsvLine(tag, tasks[0])] + TaggedLines(tag, tasks[1..])
  }

  /**
   * The lines the file is meant to hold: the header `"Priority","Task"`, then
   * one line per task, High before Medium before Low and each bucket in its
   * current order; 1 + |high| + |medium| + |low| lines in all.
   */
  function ExpectedLines(t: TaskSet): (lines: seq<string>)
    ensures |lines| == 1 + |t.highPriority| + |t.mediumPriority| + |t.lowPriority|
  {
    ["\"Priority\",\"Task\""]
      + TaggedLines("High", t.highPriority)
      + TaggedLines("Medium", t.mediumPriority)
      + TaggedLines("Low", t.lowPriority)
  }

  /** Formatting rows commutes with concatenating them. */
  lemma {:induction false} FormatRowsAppend(a: seq<seq<string>>, b: seq<seq<string>>)
    ensures FormatRows(a + b) == FormatRows(a) + FormatRows(b)
  {
    if |a| > 0 {
      assert (a + b)[1..] == a[1..] + b;
      FormatRowsAppend(a[1..], b);
    }
  }

  /** A bucket's rows format to its lines. */
  lemma {:induction false} FormatTagged(tag: string, tasks: seq<string>)
    ensures FormatRows(Tagged(tag, tasks)) == TaggedLines(tag, tasks)
  {
    if |tasks| > 0 {
      FormatPair(tag, tasks[0]);
      FormatTagged(tag, tasks[1..]);
    }
  }

  /** Before joining, the formatted rows are exactly the expected lines. */
  lemma FormattedRows(t: TaskSet)
    ensures FormatRows(Rows(t)) == ExpectedLines(t)
  {
    var header := [["Priority", "Task"]];
    var high, medium, low := Tagged("High", t.highPriority), Tagged("Medium", t.mediumPriority), Tagged("Low", t.lowPriority);
    FormatRowsAppend(header + high + medium, low);
    FormatRowsAppend(header + high, medium);
    FormatRowsAppend(header, high);
    assert Rows(t) == header + high + medium + low;
    assert FormatRows(header) == [FormatRow(["Priority", "Task"])] + FormatRows([]);
    FormatPair("Priority", "Task");
    assert CsvLine("Priority", "Task") == "\"Priority\",\"Task\"";
    FormatTagged("High", t.highPriority);
    FormatTagged("Medium", t.mediumPriority);
    FormatTagged("Low", t.lowPriority);
    calc {
      FormatRows(Rows(t));
      FormatRows(header) + FormatRows(high) + FormatRows(medium) + FormatRows(low);
      ["\"Priority\",\"Task\""] + TaggedLines("High", t.highPriority)
        + TaggedLines("Medium", t.mediumPriority) + TaggedLines("Low", t.lowPriority);
    }
  }

  /** With single-line tasks, every expected line is a single line. */
  lemma ExpectedSingleLines(t: TaskSet)
    requires SingleLineTasks(t)
    ensures forall k :: 0 <= k < |ExpectedLines(t)| ==> '\n' !in ExpectedLines(t)[k]
  {
    var lines := ExpectedLines(t);
    var h, m := |t.highPriority|, |t.mediumPriority|;
    forall k | 0 <= k < |lines| ensures '\n' !in lines[k] {
      if k == 0 {
      } else if k <= h {
        assert lines[k] == CsvLine("High", t.Get(High)[k - 1]);
      } else if k <= h + m {
        assert lines[k] == CsvLine("Medium", t.Get(Medium)[k - 1 - h]);
      } else {
        assert lines[k] == CsvLine("Low", t.Get(Low)[k - 1 - h - m]);
      }
    }
  }

  /**
   * As long as no task contains a line feed, the file reads back as exactly
   * the expected lines.
   */
  lemma ExportLines(t: TaskSet)
    requires SingleLineTasks(t)
    ensures SplitLines(ExportCsv(t)) == ExpectedLines(t)
  {
    FormattedRows(t);
    ExpectedSingleLines(t);
    SplitJoin(ExpectedLines(t));
  }

  /** The board as the page starts it, with three empty buckets, exports as the header line alone. */
  lemma ExportEmpty()
    ensures ExportCsv(NoTasks) == "\"Priority\",\"Task\""
  {
    assert TaggedLines("High", []) == [] && TaggedLines("Medium", []) == [] && TaggedLines("Low", []) == [];
    assert ExpectedLines(NoTasks) == ["\"Priority\",\"Task\""];
  }

  /** Three lines joined: the separator goes between each pair. */
  lemma JoinThree(a: string, b: string, c: string, sep: string)
    ensures Join([a, b, c], sep) == a + sep + (b + sep + c)
  {
    assert [a, b, c][1..] == [b, c];
    assert [b, c][1..] == [c];
    assert Join([b, c], sep) == b + sep + c;
    assert Join([a, b, c], sep) == a + sep + Join([b, c], sep);
  }

  /** The export of one high task and one low task: no line for the empty Medium bucket. */
  lemma ExportExample()
    ensures ExportCsv(PriorityTasks(["A"], [], ["Z"])) ==
      "\"Priority\",\"Task\"" + "\n" + ("\"High\",\"A\"" + "\n" + "\"Low\",\"Z\"")
  {
    var t: TaskSet := PriorityTasks(["A"], [], ["Z"]);
    var header, high, low := "\"Priority\",\"Task\"", "\"High\",\"A\"", "\"Low\",\"Z\"";
    assert CsvLine("High", "A") == high;
    assert CsvLine("Low", "Z") == low;
    assert TaggedLines("High", ["A"]) == [high];
    assert TaggedLines("Medium", []) == [];
    assert TaggedLines("Low", ["Z"]) == [low];
    assert ExpectedLines(t) == [header, high, low];
    JoinThree(header, high, low, "\n");
  }
}
