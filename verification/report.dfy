/** The report assembler: validates a report's configuration, builds its
    table row by row and column by column, registers the sort rules, colours
    rows and the due cells, resolves the row limit and produces the summary
    text and return code. */
module Report {
  import opened Wrappers
  import opened Strings
  import opened Records
  import opened Tables
  import opened Columns
  import opened Validation
  import opened Sorting

  // ---------------------------------------------------------------------
  // The row limit.

  /** The part of the global context the report changes: the command line's
      own task, whose `limit` attribute carries a `limit:N` given there. */
  class Context {
    var task: Task

    constructor (task: Task)
      ensures this.task == task
    {
      this.task := task;
    }

    /** A `limit` in the report's own filter is copied into the context
        only when the command line gave none. */
    method AdoptReportLimit(reportFilter: Task)
      modifies this
      ensures task == AdoptedLimit(old(task), reportFilter)
    {
      if !task.Has("limit") && reportFilter.Has("limit") {
        task := task.Set("limit", reportFilter.Get("limit"));
      }
    }
  }

  function AdoptedLimit(current: Task, reportFilter: Task): (t: Task)
    ensures t.Has("limit") <==> current.Has("limit") || reportFilter.Has("limit")
    ensures t.Get("limit") == if current.Has("limit") then current.Get("limit") else reportFilter.Get("limit")
    ensures t.id == current.id && t.tags == current.tags
    ensures forall name :: name != "limit" ==> (t.Has(name) <==> current.Has(name)) && t.Get(name) == current.Get(name)
  {
    if !current.Has("limit") && reportFilter.Has("limit") then current.Set("limit", reportFilter.Get("limit"))
    else current
  }

  /** The number of rows to render: the report's configured limit, unless
      the context carries a `limit`, which is read with atoi. */
  function ReportMaximum(config: Config, report: string, contextTask: Task): (maximum: int)
    ensures contextTask.Has("limit") ==> maximum == Atoi(contextTask.Get("limit"))
    ensures !contextTask.Has("limit") ==> maximum == config.GetInteger("report." + report + ".limit")
  {
    if contextTask.Has("limit") then Atoi(contextTask.Get("limit"))
    else config.GetInteger("report." + report + ".limit")
  }

  /** `limit:N` on the command line caps the report at N rows, whatever the
      report's configuration or its filter say. */
  lemma CommandLineLimitWins(config: Config, report: string, current: Task, reportFilter: Task, n: nat)
    requires current.Has("limit") && current.Get("limit") == NatToString(n)
    ensures ReportMaximum(config, report, AdoptedLimit(current, reportFilter)) == n
  {
    AtoiOfDecimal(n);
  }

  /** Without one on the command line, a `limit:N` in the report's filter
      caps the report at N rows. */
  lemma ReportFilterLimitApplies(config: Config, report: string, current: Task, reportFilter: Task, n: nat)
    requires !current.Has("limit") && reportFilter.Has("limit") && reportFilter.Get("limit") == NatToString(n)
    ensures ReportMaximum(config, report, AdoptedLimit(current, reportFilter)) == n
  {
    AtoiOfDecimal(n);
  }

  // ---------------------------------------------------------------------
  // The summary.

  datatype Listing = Listing(rc: int, out: string)

  /** The last line of a non-empty report. */
  function CountLine(count: nat): string
  {
    NatToString(count) + (if count == 1 then " task" else " tasks") + "\n"
  }

  /** "No matches." with return code 1 for an empty table; otherwise return
      code 0 and the rendered table, ending in the row count. The blank line
      is "" or a newline, as the blank-line setting chooses. */
  function Summary(rowCount: nat, rendered: string, blankLine: string): (listing: Listing)
    ensures listing.rc == 1 <==> rowCount == 0
    ensures listing.rc == 0 <==> rowCount > 0
    ensures rowCount == 0 ==> listing.out == "No matches.\n"
    ensures rowCount > 0 ==> |listing.out| >= |blankLine + rendered| + |CountLine(rowCount)|
    ensures rowCount > 0 ==> listing.out[..|blankLine + rendered|] == blankLine + rendered
    ensures rowCount > 0 ==> listing.out[|listing.out| - |CountLine(rowCount)|..] == CountLine(rowCount)
  {
    if rowCount > 0 then Listing(0, blankLine + rendered + blankLine + CountLine(rowCount))
    else Listing(1, "No matches.\n")
  }

  /** The count line starts with the row count: atoi reads it back. */
  lemma CountLineReadsBack(count: nat)
    ensures Atoi(CountLine(count)) == count
  {
    var rest := (if count == 1 then " task" else " tasks") + "\n";
    assert CountLine(count) == NatToString(count) + rest;
    AtoiOfDecimalThen(count, rest);
  }

  /** "task" for one row, "tasks" for any other count. */
  lemma CountLineNoun(count: nat)
    ensures count == 1 <==> CountLine(count) == "1 task\n"
    ensures count != 1 ==> CountLine(count)[|CountLine(count)| - 7..] == " tasks\n"
  {
    var line := CountLine(count);
    if count != 1 {
      assert line[|line| - 2] == 's';
    }
  }

  // ---------------------------------------------------------------------
  // Colours.

  predicate ColorOn(config: Config)
  {
    config.GetBoolean("color") || config.GetBoolean("_forcecolor")
  }

  /** Solid column underlines need colour and the underline font setting;
      without them the table gets a dashed underline. */
  predicate UnderlineOn(config: Config)
  {
    ColorOn(config) && config.GetBoolean("fontunderline")
  }

  datatype Urgency = NotDue | Imminent | Overdue

  /** What the due-state collaborator says of a task's due date; a task
      without one is not due. */
  function DueUrgency(t: Task, dueState: string -> int): (u: Urgency)
    ensures t.Get("due") == "" ==> u == NotDue
    ensures u == Overdue <==> t.Get("due") != "" && dueState(t.Get("due")) == 2
    ensures u == Imminent <==> t.Get("due") != "" && dueState(t.Get("due")) == 1
  {
    var due := t.Get("due");
    if due == "" then NotDue
    else if dueState(due) == 2 then Overdue
    else if dueState(due) == 1 then Imminent
    else NotDue
  }

  /** A row's colour: its own fg and bg, then the automatic colour rules. */
  function RowColor(t: Task): Color
  {
    AutoColorized(Parsed(t.Get("fg") + " " + t.Get("bg")), t)
  }

  /** The due cell's colour: the row colour blended with `color.overdue` for
      an overdue task and with `color.due` for every other task, whether or
      not its due date is imminent. */
  function DueCellColor(t: Task, config: Config, dueState: string -> int): (c: Color)
    ensures c.Blended? && c.base == RowColor(t)
    ensures DueUrgency(t, dueState) == Overdue ==> c.over == Parsed(config.Get("color.overdue"))
    ensures DueUrgency(t, dueState) != Overdue ==> c.over == Parsed(config.Get("color.due"))
  {
    var overdue := DueUrgency(t, dueState) == Overdue;
    Blended(RowColor(t), Parsed(config.Get(if overdue then "color.overdue" else "color.due")))
  }

  /** The row colours set for the tasks, by row. */
  function RowColors(ts: seq<Task>, end: nat): map<nat, Color>
    requires end <= |ts|
  {
    if end == 0 then map[]
    else RowColors(ts, end - 1)[end - 1 := RowColor(ts[end - 1])]
  }

  /** The cell colours set for the tasks' due dates, by (row, column). */
  function DueCellColors(ts: seq<Task>, column: nat, config: Config, dueState: string -> int, end: nat): map<(nat, nat), Color>
    requires end <= |ts|
  {
    if end == 0 then map[]
    else DueCellColors(ts, column, config, dueState, end - 1)[(end - 1, column) := DueCellColor(ts[end - 1], config, dueState)]
  }

  /** Every row gets its task's colour, and only rows of tasks do. */
  lemma {:induction false} RowColorsAt(ts: seq<Task>, end: nat, row: nat)
    requires end <= |ts|
    ensures row in RowColors(ts, end) <==> row < end
    ensures row in RowColors(ts, end) ==> RowColors(ts, end)[row] == RowColor(ts[row])
  {
    if end > 0 {
      RowColorsAt(ts, end - 1, row);
    }
  }

  /** The due colours all go to the one column they are given, one per row. */
  lemma {:induction false} DueCellColorsAt(ts: seq<Task>, column: nat, config: Config, dueState: string -> int,
                                           end: nat, key: (nat, nat))
    requires end <= |ts|
    ensures key in DueCellColors(ts, column, config, dueState, end) <==> key.0 < end && key.1 == column
    ensures key in DueCellColors(ts, column, config, dueState, end) ==>
              DueCellColors(ts, column, config, dueState, end)[key] == DueCellColor(ts[key.0], config, dueState)
  {
    if end > 0 {
      DueCellColorsAt(ts, column, config, dueState, end - 1, key);
    }
  }

  /** The due colours are set on the column one past the last column, never
      on the `due` column itself. */
  lemma DueColorsMissDueColumn(names: seq<Name>, ts: seq<Task>, config: Config, dueState: string -> int, key: (nat, nat))
    requires Due in names
    requires key in DueCellColors(ts, |names|, config, dueState, |ts|)
    ensures key.1 == |names| && key.1 != LastIndexOf(names, Due)
  {
    DueCellColorsAt(ts, |names|, config, dueState, |ts|, key);
  }

  // ---------------------------------------------------------------------
  // The table.

  /** A report column as built: header, the kind's width policy and
      justification, and its cells by row. */
  function ReportColumn(n: Name, header: string, tasks: seq<Task>, config: Config, report: string): Column
  {
    var kind := DefaultKind(n);
    Column(header, Some(kind.width), Some(kind.justification), Placed(n, tasks, config, report))
  }

  /** The first `end` columns built for a report whose columns are of kinds
      `names`, headed as `labels` say. */
  function ReportColumns(names: seq<Name>, labels: seq<string>,
                         tasks: seq<Task>, config: Config, report: string, end: nat): (built: seq<Column>)
    requires |labels| == 0 || |labels| == |names|
    requires end <= |names|
    ensures |built| == end
  {
    seq(end, i requires 0 <= i < end => ReportColumn(names[i], HeaderFor(names, labels, names[i]), tasks, config, report))
  }

  /** Building one more column appends it. */
  lemma ReportColumnsStep(names: seq<Name>, labels: seq<string>,
                          tasks: seq<Task>, config: Config, report: string, end: nat)
    requires |labels| == 0 || |labels| == |names|
    requires end < |names|
    ensures ReportColumns(names, labels, tasks, config, report, end + 1)
              == ReportColumns(names, labels, tasks, config, report, end)
                 + [ReportColumn(names[end], HeaderFor(names, labels, names[end]), tasks, config, report)]
  {
  }

  /** The columns below `count` that carry a solid underline. */
  function Underlines(config: Config, count: nat): (underlined: set<nat>)
    ensures forall k: nat :: k in underlined <==> UnderlineOn(config) && k < count
  {
    if count == 0 || !UnderlineOn(config) then {} else Underlines(config, count - 1) + {count - 1}
  }

  /** The table built for columns of kinds `names`, named `columns`. */
  function Assembled(names: seq<Name>, columns: seq<string>, labels: seq<string>, sortOrder: seq<string>,
                     tasks: seq<Task>, config: Config, report: string, dueState: string -> int): Grid
    requires |labels| == 0 || |labels| == |names|
    requires TokensValid(columns, sortOrder)
  {
    Grid(
      |tasks|,
      ReportColumns(names, labels, tasks, config, report, |names|),
      Underlines(config, |names|),
      !UnderlineOn(config) && |names| > 0,
      SortRules(columns, sortOrder, |sortOrder|),
      if ColorOn(config) then RowColors(tasks, |tasks|) else map[],
      if ColorOn(config) && Due in names then DueCellColors(tasks, |names|, config, dueState, |tasks|) else map[])
  }

  /** The table a valid report configuration produces. */
  function ReportGrid(columns: seq<string>, labels: seq<string>, sortOrder: seq<string>,
                      tasks: seq<Task>, config: Config, report: string, dueState: string -> int): Grid
    requires AllColumnNames(columns) && (|labels| == 0 || |labels| == |columns|)
    requires SortColumnsValid(columns, sortOrder)
  {
    ValidatedTokensNonEmpty(columns, sortOrder);
    Assembled(NamesOf(columns), columns, labels, sortOrder, tasks, config, report, dueState)
  }

  /** Column i of a report whose columns are of kinds `names` carries the
      header of its kind and, unless it is `wait`, has task r's cell, when
      the column gives it one, on row r. */
  lemma ReportColumnCell(names: seq<Name>, labels: seq<string>, tasks: seq<Task>, config: Config, report: string,
                         i: nat, row: nat)
    requires |labels| == 0 || |labels| == |names|
    requires i < |names| && names[i] != Wait
    ensures var c := ReportColumns(names, labels, tasks, config, report, |names|)[i];
            && c.header == HeaderFor(names, labels, names[i])
            && (row in c.cells <==> row < |tasks| && CellFor(names[i], tasks[row], config, report).Some?)
            && (row in c.cells ==> Some(c.cells[row]) == CellFor(names[i], tasks[row], config, report))
  {
    PlacedByIndex(names[i], tasks, config, report, row);
  }

  /** In a built report, column i is of the kind its name selects and,
      unless it is `wait`, has task r's cell, when the column gives it one,
      on row r, under the column's header. */
  lemma ReportGridCell(columns: seq<string>, labels: seq<string>, sortOrder: seq<string>,
                       tasks: seq<Task>, config: Config, report: string, dueState: string -> int,
                       i: nat, row: nat)
    requires AllColumnNames(columns) && (|labels| == 0 || |labels| == |columns|)
    requires SortColumnsValid(columns, sortOrder)
    requires i < |columns| && columns[i] != "wait"
    ensures var g, n := ReportGrid(columns, labels, sortOrder, tasks, config, report, dueState), NamesOf(columns)[i];
            && NameText(n) == columns[i]
            && |g.columns| == |columns|
            && g.columns[i].header == HeaderFor(NamesOf(columns), labels, n)
            && (row in g.columns[i].cells <==> row < |tasks| && CellFor(n, tasks[row], config, report).Some?)
            && (row in g.columns[i].cells ==> Some(g.columns[i].cells[row]) == CellFor(n, tasks[row], config, report))
  {
    NamesOfAt(columns, i);
    ReportColumnCell(NamesOf(columns), labels, tasks, config, report, i, row);
  }

  /** In a built report, the k-th sort rule comes from the k-th sort token:
      it sorts on a column of the token's name, in that column's family,
      ascending exactly when the token is the column's name followed by '+'. */
  lemma ReportGridSortRule(columns: seq<string>, labels: seq<string>, sortOrder: seq<string>,
                           tasks: seq<Task>, config: Config, report: string, dueState: string -> int,
                           k: nat)
    requires AllColumnNames(columns) && (|labels| == 0 || |labels| == |columns|)
    requires SortColumnsValid(columns, sortOrder)
    requires k < |sortOrder|
    ensures var g := ReportGrid(columns, labels, sortOrder, tasks, config, report, dueState);
            && |g.sortRules| == |sortOrder|
            && g.sortRules[k].column < |columns|
            && columns[g.sortRules[k].column] == ColumnPart(sortOrder[k])
            && g.sortRules[k].family == SortFamily(ColumnPart(sortOrder[k]))
            && (g.sortRules[k].ascending <==> sortOrder[k] == ColumnPart(sortOrder[k]) + "+")
  {
    ValidatedTokensNonEmpty(columns, sortOrder);
    SortRulesAt(columns, sortOrder, |sortOrder|, k);
  }

  /** One row per task. */
  method AddRows(table: Table, count: nat)
    modifies table
    ensures table.Snapshot() == old(table.Snapshot()).(rows := old(table.rows) + count)
  {
    for i := 0 to count
      invariant table.Snapshot() == old(table.Snapshot()).(rows := old(table.rows) + i)
    {
      table.AddRow();
    }
  }

  /** The cell loop of every column but `wait`: task i's cell goes on row i. */
  method PlaceByRow(table: Table, n: Name, column: nat, tasks: seq<Task>, config: Config, report: string)
    requires n != Wait
    requires column < |table.columns| && table.columns[column].cells == map[]
    modifies table
    ensures table.Snapshot() == old(table.Snapshot()).(
              columns := old(table.columns)[column := old(table.columns)[column].(cells := Placed(n, tasks, config, report))])
  {
    ghost var cs := CellsOf(n, tasks, config, report);
    for row := 0 to |tasks|
      invariant table.Snapshot() == old(table.Snapshot()).(
                  columns := old(table.columns)[column := old(table.columns)[column].(cells := Layout(cs, false, row))])
    {
      var cell := CellFor(n, tasks[row], config, report);
      if cell.Some? {
        table.AddCell(row, column, cell.value);
      }
    }
  }

  /** The cell loop of `wait`: its own row counter advances only when a
      cell is added, so the cells are packed into the first rows. */
  method PlaceWait(table: Table, column: nat, tasks: seq<Task>, config: Config, report: string)
    requires column < |table.columns| && table.columns[column].cells == map[]
    modifies table
    ensures table.Snapshot() == old(table.Snapshot()).(
              columns := old(table.columns)[column := old(table.columns)[column].(cells := Placed(Wait, tasks, config, report))])
  {
    ghost var cs := CellsOf(Wait, tasks, config, report);
    var row := 0;
    for i := 0 to |tasks|
      invariant row == Count(cs, i)
      invariant table.Snapshot() == old(table.Snapshot()).(
                  columns := old(table.columns)[column := old(table.columns)[column].(cells := Layout(cs, true, i))])
    {
      var cell := CellFor(Wait, tasks[i], config, report);
      if cell.Some? {
        table.AddCell(row, column, cell.value);
        row := row + 1;
      }
    }
  }

  /** One branch of the column dispatch: add the column with its header,
      width and justification, then its cells. */
  method AddReportColumn(table: Table, n: Name, header: string, column: nat,
                         tasks: seq<Task>, config: Config, report: string)
    requires column == |table.columns|
    modifies table
    ensures table.Snapshot() == old(table.Snapshot()).(columns := old(table.columns) + [ReportColumn(n, header, tasks, config, report)])
  {
    var kind := DefaultKind(n);
    table.AddColumn(header);
    table.SetColumnWidth(column, kind.width);
    table.SetColumnJustification(column, kind.justification);
    if n == Wait {
      PlaceWait(table, column, tasks, config, report);
    } else {
      PlaceByRow(table, n, column, tasks, config, report);
    }
  }

  /** Adds column `ci` of the report, headed by its label or its default. */
  method AddColumnAt(table: Table, columns: seq<string>, names: seq<Name>, labels: seq<string>,
                     columnLabels: map<string, string>, ci: nat, tasks: seq<Task>, config: Config, report: string)
    requires |columns| == |names| && (|labels| == 0 || |labels| == |names|)
    requires LabelsHead(columnLabels, columns, names, labels)
    requires ci < |names| && ci == |table.columns|
    modifies table
    ensures table.Snapshot() == old(table.Snapshot()).(
              columns := old(table.columns) + [ReportColumn(names[ci], HeaderFor(names, labels, names[ci]), tasks, config, report)])
  {
    var n := names[ci];
    AddReportColumn(table, n, LabelOf(columnLabels, columns[ci], n), ci, tasks, config, report);
  }

  /** The underline step common to all columns: a solid underline on the
      column when colour and the underline font are on, otherwise a dashed
      underline for the whole table. */
  method UnderlineColumn(table: Table, config: Config, column: nat)
    requires table.underlined == Underlines(config, column)
    modifies table
    ensures table.Snapshot() == old(table.Snapshot()).(
              underlined := Underlines(config, column + 1),
              dashedUnderline := old(table.dashedUnderline) || !UnderlineOn(config))
  {
    if UnderlineOn(config) {
      table.SetColumnUnderline(column);
    } else {
      table.SetTableDashedUnderline();
    }
  }

  /** One turn of the column loop: column `ci` is added and underlined. */
  method AddColumnStep(table: Table, columns: seq<string>, names: seq<Name>, labels: seq<string>,
                       columnLabels: map<string, string>, ci: nat, tasks: seq<Task>, config: Config, report: string)
    requires |columns| == |names| && (|labels| == 0 || |labels| == |names|)
    requires LabelsHead(columnLabels, columns, names, labels)
    requires ci < |names|
    requires table.columns == ReportColumns(names, labels, tasks, config, report, ci)
    requires table.underlined == Underlines(config, ci)
    modifies table
    ensures table.Snapshot() == old(table.Snapshot()).(
              columns := ReportColumns(names, labels, tasks, config, report, ci + 1),
              underlined := Underlines(config, ci + 1),
              dashedUnderline := old(table.dashedUnderline) || !UnderlineOn(config))
  {
    ReportColumnsStep(names, labels, tasks, config, report, ci);
    AddColumnAt(table, columns, names, labels, columnLabels, ci, tasks, config, report);
    UnderlineColumn(table, config, ci);
  }

  /** The loop over the report's columns: each column is added, remembered
      as the due column if it is `due`, and underlined. */
  method AddColumns(table: Table, columns: seq<string>, names: seq<Name>, labels: seq<string>,
                    columnLabels: map<string, string>, tasks: seq<Task>, config: Config, report: string)
    returns (columnCount: nat, dueColumn: int)
    requires |columns| == |names| && (|labels| == 0 || |labels| == |names|)
    requires LabelsHead(columnLabels, columns, names, labels)
    requires table.columns == [] && table.underlined == {} && !table.dashedUnderline
    modifies table
    ensures table.Snapshot() == old(table.Snapshot()).(
              columns := ReportColumns(names, labels, tasks, config, report, |names|),
              underlined := Underlines(config, |names|),
              dashedUnderline := !UnderlineOn(config) && |names| > 0)
    ensures columnCount == |names|
    ensures dueColumn == LastIndexOf(names, Due)
  {
    columnCount, dueColumn := 0, -1;
    for ci := 0 to |names|
      invariant columnCount == ci
      invariant table.Snapshot() == old(table.Snapshot()).(
                  columns := ReportColumns(names, labels, tasks, config, report, ci),
                  underlined := Underlines(config, ci),
                  dashedUnderline := !UnderlineOn(config) && ci > 0)
      invariant dueColumn == LastIndexBefore(names, Due, ci)
    {
      AddColumnStep(table, columns, names, labels, columnLabels, ci, tasks, config, report);
      if names[ci] == Due {
        dueColumn := columnCount;
      }
      columnCount := columnCount + 1;
    }
    LastIndexBeforeEnd(names, Due, |names|);
    assert names[..|names|] == names;
  }

  /** The loop that registers one sort rule per sort token, in token order.
      `columnIndex[column]` is always present here: validation has put every
      token's column among the report's columns. */
  method RegisterSortRules(table: Table, columns: seq<string>, sortOrder: seq<string>)
    requires TokensValid(columns, sortOrder)
    modifies table
    ensures table.Snapshot() == old(table.Snapshot()).(sortRules := old(table.sortRules) + SortRules(columns, sortOrder, |sortOrder|))
  {
    var columnIndex := BuildColumnIndex(columns);
    for s := 0 to |sortOrder|
      invariant table.Snapshot() == old(table.Snapshot()).(sortRules := old(table.sortRules) + SortRules(columns, sortOrder, s))
    {
      var token := sortOrder[s];
      var column := ColumnPart(token);
      var direction := token[|token| - 1];
      assert SortRule(columnIndex[column], SortFamily(column), Ascending(direction)) == RuleFor(columns, token);
      table.SortOn(columnIndex[column], SortFamily(column), Ascending(direction));
    }
  }

  /** One turn of the colouring loop: with colour on, row `row` gets its
      task's colour and, when the report has a due column, the cell at
      column `columnCount` gets the blended due colour. */
  method ColorRow(table: Table, tasks: seq<Task>, row: nat, config: Config, dueColumn: int, columnCount: nat,
                  colorDue: Color, colorOverdue: Color, dueState: string -> int)
    requires row < |tasks|
    requires colorDue == Parsed(config.Get("color.due")) && colorOverdue == Parsed(config.Get("color.overdue"))
    requires table.rowColors == if ColorOn(config) then RowColors(tasks, row) else map[]
    requires table.cellColors == if ColorOn(config) && dueColumn != -1 then DueCellColors(tasks, columnCount, config, dueState, row) else map[]
    modifies table
    ensures table.Snapshot() == old(table.Snapshot()).(
              rowColors := if ColorOn(config) then RowColors(tasks, row + 1) else map[],
              cellColors := if ColorOn(config) && dueColumn != -1 then DueCellColors(tasks, columnCount, config, dueState, row + 1) else map[])
  {
    var overdue := false;
    var due := tasks[row].Get("due");
    if |due| > 0 {
      var state := dueState(due);
      if state == 2 {
        overdue := true;
      }
    }
    if ColorOn(config) {
      var c := AutoColorized(Parsed(tasks[row].Get("fg") + " " + tasks[row].Get("bg")), tasks[row]);
      table.SetRowColor(row, c);
      if dueColumn != -1 {
        c := Blended(c, if overdue then colorOverdue else colorDue);
        table.SetCellColor(row, columnCount, c);
      }
    }
  }

  /** The colouring loop, over every row. */
  method Colorize(table: Table, tasks: seq<Task>, config: Config, dueColumn: int, columnCount: nat,
                  dueState: string -> int)
    requires table.rowColors == map[] && table.cellColors == map[]
    modifies table
    ensures table.Snapshot() == old(table.Snapshot()).(
              rowColors := if ColorOn(config) then RowColors(tasks, |tasks|) else map[],
              cellColors := if ColorOn(config) && dueColumn != -1 then DueCellColors(tasks, columnCount, config, dueState, |tasks|) else map[])
  {
    var colorDue := Parsed(config.Get("color.due"));
    var colorOverdue := Parsed(config.Get("color.overdue"));
    for row := 0 to |tasks|
      invariant table.Snapshot() == old(table.Snapshot()).(
                  rowColors := if ColorOn(config) then RowColors(tasks, row) else map[],
                  cellColors := if ColorOn(config) && dueColumn != -1 then DueCellColors(tasks, columnCount, config, dueState, row) else map[])
    {
      ColorRow(table, tasks, row, config, dueColumn, columnCount, colorDue, colorOverdue, dueState);
    }
  }

  /** The table part of `runCustomReport`, once the configuration has
      passed its checks: rows, columns, sort rules and colours. */
  method BuildTable(names: seq<Name>, columns: seq<string>, labels: seq<string>, columnLabels: map<string, string>,
                    sortOrder: seq<string>, tasks: seq<Task>, config: Config, report: string,
                    dueState: string -> int)
    returns (table: Table)
    requires |columns| == |names| && (|labels| == 0 || |labels| == |names|)
    requires LabelsHead(columnLabels, columns, names, labels)
    requires TokensValid(columns, sortOrder)
    ensures fresh(table)
    ensures table.rows == |tasks|
    ensures table.columns == ReportColumns(names, labels, tasks, config, report, |names|)
    ensures table.underlined == Underlines(config, |names|)
    ensures table.dashedUnderline == (!UnderlineOn(config) && |names| > 0)
    ensures table.sortRules == SortRules(columns, sortOrder, |sortOrder|)
    ensures table.rowColors == if ColorOn(config) then RowColors(tasks, |tasks|) else map[]
    ensures table.cellColors == if ColorOn(config) && Due in names then DueCellColors(tasks, |names|, config, dueState, |tasks|) else map[]
  {
    table := new Table();
    AddRows(table, |tasks|);
    var columnCount, dueColumn := AddColumns(table, columns, names, labels, columnLabels, tasks, config, report);
    RegisterSortRules(table, columns, sortOrder);
    Colorize(table, tasks, config, dueColumn, columnCount, dueState);
    assert dueColumn != -1 <==> Due in names;
  }

  datatype Reply = Reply(grid: Grid, maximum: int, listing: Listing)

  /** `runCustomReport`: the checks in their order (unknown columns, then
      the label count, then the sort tokens), each failing with its message
      before anything else happens; then the limit adoption, the table, its
      sort rules and colours, the limit and the summary. */
  method RunCustomReport(context: Context, config: Config, report: string,
                         columns: seq<string>, labels: seq<string>, sortOrder: seq<string>,
                         reportFilter: Task, tasks: seq<Task>,
                         dueState: string -> int, render: (Grid, int) -> string, blankLine: string)
    returns (r: Result<Reply>)
    modifies context
    ensures r.Ok? <==> AllColumnNames(columns) && !LabelCountMismatch(columns, labels) && SortColumnsValid(columns, sortOrder)
    ensures !AllColumnNames(columns) ==>
              r == Err("Unrecognized column name: " + Join(UnknownColumns(columns), ", "))
    ensures AllColumnNames(columns) && LabelCountMismatch(columns, labels) ==>
              r == Err(LabelCountMessage(report))
    ensures AllColumnNames(columns) && !LabelCountMismatch(columns, labels) && !SortColumnsValid(columns, sortOrder) ==>
              r == Err("Sort column is not part of the report: " + Join(BadSortTokens(columns, sortOrder), ", "))
    ensures r.Err? ==> context.task == old(context.task)
    ensures r.Ok? ==> context.task == AdoptedLimit(old(context.task), reportFilter)
    ensures r.Ok? ==> r.value.grid == ReportGrid(columns, labels, sortOrder, tasks, config, report, dueState)
    ensures r.Ok? ==> r.value.maximum == ReportMaximum(config, report, context.task)
    ensures r.Ok? ==> r.value.listing == Summary(|tasks|, render(r.value.grid, r.value.maximum), blankLine)
  {
    var columnCheck := ValidReportColumns(columns);
    if columnCheck.Fail? {
      return Err(columnCheck.message);
    }
    if LabelCountMismatch(columns, labels) {
      return Err(LabelCountMessage(report));
    }
    var columnLabels := BuildColumnLabels(columns, labels);
    var sortCheck := ValidSortColumns(columns, sortOrder);
    if sortCheck.Fail? {
      return Err(sortCheck.message);
    }

    context.AdoptReportLimit(reportFilter);

    // Each name selects its branch of the column dispatch.
    var names := NamesOf(columns);
    LabelMapHeads(columnLabels, columns, labels);
    ValidatedTokensNonEmpty(columns, sortOrder);
    var table := BuildTable(names, columns, labels, columnLabels, sortOrder, tasks, config, report, dueState);

    var maximum := config.GetInteger("report." + report + ".limit");
    if context.task.Has("limit") {
      maximum := Atoi(context.task.Get("limit"));
    }

    var grid := table.Snapshot();
    var listing := Summary(table.RowCount(), render(grid, maximum), blankLine);
    r := Ok(Reply(grid, maximum, listing));
  }
}
