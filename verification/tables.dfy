/** The abstract table the report assembles before it is rendered: rows,
    columns with their label, width policy, justification and cells, the
    underline style, the sort rules and the colours. Rendering, width
    negotiation, the sort comparators and colour blending belong to the table
    and colour primitives and are not part of this model; cells and colours
    are therefore kept as symbolic values that say how they would be
    produced. */
module Tables {
  import opened Wrappers
  import opened Records

  datatype Width = Minimum | Flexible

  datatype Justification = Left | Right

  /** The value of one cell. Dates, durations, due dates and full
      descriptions are produced by formatting code outside this model, so a
      cell records its inputs instead of the text. */
  datatype Cell =
    | Plain(text: string)
      // a number, as `addCell` receives a task id
    | Integer(n: int)
      // a date rendered with a format, with or without the time of day
    | FormattedDate(stamp: int, format: string, withTime: bool)
      // the time elapsed since a date, in the long or the compact form
    | Elapsed(since: int, compact: bool)
      // the due date text `getDueDate` produces
    | DueDateText(task: Task, format: string)
      // the description with annotations `getFullDescription` produces
    | FullDescription(task: Task, report: string)

  /** A colour as the colour primitive would compute it. */
  datatype Color =
    | Parsed(spec: string)                 // a colour parsed from its text
    | AutoColorized(base: Color, task: Task)  // after the automatic colour rules
    | Blended(base: Color, over: Color)    // one colour blended over another

  /** The comparison families of `Table::sortOn`. */
  datatype Family = Numeric | PriorityOrder | Chronological | DueDate | Period | Character

  /** One sort rule the table is given: a column, a family and a direction. */
  datatype SortRule = SortRule(column: nat, family: Family, ascending: bool)

  datatype Column = Column(
    header: string,
    width: Option<Width>,
    justification: Option<Justification>,
    cells: map<nat, Cell>)

  /** The whole state of a table, as a value. */
  datatype Grid = Grid(
    rows: nat,
    columns: seq<Column>,
    underlined: set<nat>,
    dashedUnderline: bool,
    sortRules: seq<SortRule>,
    rowColors: map<nat, Color>,
    cellColors: map<(nat, nat), Color>)

  const EmptyGrid := Grid(0, [], {}, false, [], map[], map[])

  class Table {
    var rows: nat
    var columns: seq<Column>
    var underlined: set<nat>
    var dashedUnderline: bool
    var sortRules: seq<SortRule>
    var rowColors: map<nat, Color>
    var cellColors: map<(nat, nat), Color>

    function Snapshot(): Grid
      reads this
    {
      Grid(rows, columns, underlined, dashedUnderline, sortRules, rowColors, cellColors)
    }

    constructor ()
      ensures Snapshot() == EmptyGrid
    {
      rows, columns, underlined, dashedUnderline := 0, [], {}, false;
      sortRules, rowColors, cellColors := [], map[], map[];
    }

    function RowCount(): nat
      reads this
    {
      rows
    }

    method AddRow()
      modifies this
      ensures Snapshot() == old(Snapshot()).(rows := old(rows) + 1)
    {
      rows := rows + 1;
    }

    method AddColumn(header: string)
      modifies this
      ensures Snapshot() == old(Snapshot()).(columns := old(columns) + [Column(header, None, None, map[])])
    {
      columns := columns + [Column(header, None, None, map[])];
    }

    method SetColumnWidth(column: nat, width: Width)
      requires column < |columns|
      modifies this
      ensures Snapshot() == old(Snapshot()).(columns := old(columns)[column := old(columns)[column].(width := Some(width))])
    {
      columns := columns[column := columns[column].(width := Some(width))];
    }

    method SetColumnJustification(column: nat, justification: Justification)
      requires column < |columns|
      modifies this
      ensures Snapshot() == old(Snapshot()).(columns := old(columns)[column := old(columns)[column].(justification := Some(justification))])
    {
      columns := columns[column := columns[column].(justification := Some(justification))];
    }

    method AddCell(row: nat, column: nat, value: Cell)
      requires column < |columns|
      modifies this
      ensures Snapshot() == old(Snapshot()).(columns := old(columns)[column := old(columns)[column].(cells := old(columns)[column].cells[row := value])])
    {
      columns := columns[column := columns[column].(cells := columns[column].cells[row := value])];
    }

    method SetColumnUnderline(column: nat)
      modifies this
      ensures Snapshot() == old(Snapshot()).(underlined := old(underlined) + {column})
    {
      underlined := underlined + {column};
    }

    method SetTableDashedUnderline()
      modifies this
      ensures Snapshot() == old(Snapshot()).(dashedUnderline := true)
    {
      dashedUnderline := true;
    }

    method SortOn(column: nat, family: Family, ascending: bool)
      modifies this
      ensures Snapshot() == old(Snapshot()).(sortRules := old(sortRules) + [SortRule(column, family, ascending)])
    {
      sortRules := sortRules + [SortRule(column, family, ascending)];
    }

    method SetRowColor(row: nat, color: Color)
      modifies this
      ensures Snapshot() == old(Snapshot()).(rowColors := old(rowColors)[row := color])
    {
      rowColors := rowColors[row := color];
    }

    /** The column index is not checked against the number of columns: the
        primitive keeps whatever coordinates it is given. */
    method SetCellColor(row: nat, column: nat, color: Color)
      modifies this
      ensures Snapshot() == old(Snapshot()).(cellColors := old(cellColors)[(row, column) := color])
    {
      cellColors := cellColors[(row, column) := color];
    }
  }
}
