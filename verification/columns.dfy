/** The column registry: the 22 column names a report may use, each one's
    default label, width policy and justification, the cell it derives from
    a task (or that it emits none), and the rows those cells land on. */
module Columns {
  import opened Wrappers
  import opened Strings
  import opened Records
  import opened Tables

  /** The column kinds, one per accepted name. */
  datatype Name =
    | Id | Uuid | Project | Priority | PriorityLong
    | Entry | EntryTime | Start | StartTime | End | EndTime
    | Due | Age | AgeCompact | Active | Tags | Recur
    | RecurrenceIndicator | TagIndicator | DescriptionOnly | Description | Wait

  function NameText(n: Name): string
  {
    match n
    case Id => "id"
    case Uuid => "uuid"
    case Project => "project"
    case Priority => "priority"
    case PriorityLong => "priority_long"
    case Entry => "entry"
    case EntryTime => "entry_time"
    case Start => "start"
    case StartTime => "start_time"
    case End => "end"
    case EndTime => "end_time"
    case Due => "due"
    case Age => "age"
    case AgeCompact => "age_compact"
    case Active => "active"
    case Tags => "tags"
    case Recur => "recur"
    case RecurrenceIndicator => "recurrence_indicator"
    case TagIndicator => "tag_indicator"
    case DescriptionOnly => "description_only"
    case Description => "description"
    case Wait => "wait"
  }

  /** The column dispatch: the chain of name comparisons that picks a
      column's branch. A name that is none of the 22 selects no branch. */
  function NameOf(s: string): (n: Option<Name>)
    ensures n.Some? ==> NameText(n.value) == s
  {
    if s == "id" then Some(Id)
    else if s == "uuid" then Some(Uuid)
    else if s == "project" then Some(Project)
    else if s == "priority" then Some(Priority)
    else if s == "priority_long" then Some(PriorityLong)
    else if s == "entry" then Some(Entry)
    else if s == "entry_time" then Some(EntryTime)
    else if s == "start" then Some(Start)
    else if s == "start_time" then Some(StartTime)
    else if s == "end" then Some(End)
    else if s == "end_time" then Some(EndTime)
    else if s == "due" then Some(Due)
    else if s == "age" then Some(Age)
    else if s == "age_compact" then Some(AgeCompact)
    else if s == "active" then Some(Active)
    else if s == "tags" then Some(Tags)
    else if s == "description_only" then Some(DescriptionOnly)
    else if s == "description" then Some(Description)
    else if s == "recur" then Some(Recur)
    else if s == "recurrence_indicator" then Some(RecurrenceIndicator)
    else if s == "tag_indicator" then Some(TagIndicator)
    else if s == "wait" then Some(Wait)
    else None
  }

  /** Each kind is selected by exactly its own name: the 22 names are all
      different. */
  lemma NameOfText(n: Name)
    ensures NameOf(NameText(n)) == Some(n)
  {
  }

  /** Whether `s` is one of the 22 column names the report engine accepts. */
  predicate IsColumnName(s: string)
  {
    NameOf(s).Some?
  }

  /** A string is a column name exactly when it is the name of a kind. */
  lemma ColumnNameIsText(s: string)
    ensures IsColumnName(s) <==> exists n :: NameText(n) == s
  {
    if !IsColumnName(s) {
      forall n ensures NameText(n) != s {
        NameOfText(n);
      }
    }
  }

  /** Whether every name in `columns` is a column name, checked from the
      last name back. */
  predicate AllColumnNames(columns: seq<string>)
  {
    |columns| == 0 || (AllColumnNames(columns[..|columns| - 1]) && IsColumnName(columns[|columns| - 1]))
  }

  /** Every name of a list that passes is a column name. */
  lemma {:induction false} AllColumnNamesHave(columns: seq<string>, x: string)
    requires AllColumnNames(columns) && x in columns
    ensures IsColumnName(x)
  {
    var init, last := columns[..|columns| - 1], columns[|columns| - 1];
    if x != last {
      assert columns == init + [last];
      AllColumnNamesHave(init, x);
    }
  }

  /** The kinds of a list of validated column names, in order. */
  function NamesOf(columns: seq<string>): (names: seq<Name>)
    requires AllColumnNames(columns)
    ensures |names| == |columns|
  {
    if |columns| == 0 then []
    else NamesOf(columns[..|columns| - 1]) + [NameOf(columns[|columns| - 1]).value]
  }

  /** The i-th kind of a validated list is the one its i-th name selects,
      and that kind's name is the i-th name. */
  lemma {:induction false} NamesOfAt(columns: seq<string>, i: nat)
    requires AllColumnNames(columns) && i < |columns|
    ensures Some(NamesOf(columns)[i]) == NameOf(columns[i])
    ensures NameText(NamesOf(columns)[i]) == columns[i]
  {
    var init := columns[..|columns| - 1];
    if i < |init| {
      NamesOfAt(init, i);
      assert init[i] == columns[i];
    }
  }

  /** A kind occurs in the list exactly where its name does, so its last
      position is its name's last position. */
  lemma {:induction false} NamesOfLastIndex(columns: seq<string>, n: Name)
    requires AllColumnNames(columns)
    ensures LastIndexOf(NamesOf(columns), n) == LastIndexOf(columns, NameText(n))
  {
    if |columns| > 0 {
      var init, last := columns[..|columns| - 1], columns[|columns| - 1];
      NamesOfLastIndex(init, n);
      NameOfText(n);
      assert columns == init + [last];
      LastIndexOfSnoc(NamesOf(init), NameOf(last).value, n);
      LastIndexOfSnoc(init, last, NameText(n));
    }
  }

  /** Columns that add a cell for every task. */
  predicate EveryRow(n: Name)
  {
    n in {Id, Uuid, Project, Priority, PriorityLong, Due, Tags, DescriptionOnly, Description}
  }

  /** What a column name fixes about its column, besides its cells. */
  datatype Kind = Kind(defaultLabel: string, width: Width, justification: Justification)

  function DefaultKind(n: Name): (k: Kind)
    ensures k.defaultLabel != ""
    ensures k.width == Flexible <==> n == Description || n == DescriptionOnly
  {
    match n
    case Id => Kind("ID", Minimum, Right)
    case Uuid => Kind("UUID", Minimum, Left)
    case Project => Kind("Project", Minimum, Left)
    case Priority => Kind("Pri", Minimum, Left)
    case PriorityLong => Kind("Pri", Minimum, Left)
    case Entry => Kind("Added", Minimum, Right)
    case EntryTime => Kind("Added", Minimum, Right)
    case Start => Kind("Started", Minimum, Right)
    case StartTime => Kind("Started", Minimum, Right)
    case End => Kind("Completed", Minimum, Right)
    case EndTime => Kind("Completed", Minimum, Right)
    case Due => Kind("Due", Minimum, Left)
    case Age => Kind("Age", Minimum, Right)
    case AgeCompact => Kind("Age", Minimum, Right)
    case Active => Kind("Active", Minimum, Left)
    case Tags => Kind("Tags", Minimum, Left)
    case DescriptionOnly => Kind("Description", Flexible, Left)
    case Description => Kind("Description", Flexible, Left)
    case Recur => Kind("Recur", Minimum, Right)
    case RecurrenceIndicator => Kind("R", Minimum, Right)
    case TagIndicator => Kind("T", Minimum, Right)
    case Wait => Kind("Wait", Minimum, Right)
  }

  /** The long form of a priority code; anything else, the empty code
      included, is shown as it is. */
  function ExpandPriority(priority: string): (shown: string)
    ensures priority == "H" ==> shown == "High"
    ensures priority == "M" ==> shown == "Medium"
    ensures priority == "L" ==> shown == "Low"
    ensures priority != "H" && priority != "M" && priority != "L" ==> shown == priority
  {
    if priority == "H" then "High"
    else if priority == "M" then "Medium"
    else if priority == "L" then "Low"
    else priority
  }

  /** The date format of the `due` column: the report's own, else the
      report-wide one, else the global one. */
  function DueDateFormat(config: Config, report: string): (format: string)
    ensures var own, reports, global :=
              config.Get("report." + report + ".dateformat"),
              config.Get("dateformat.report"),
              config.Get("dateformat");
            && (own != "" ==> format == own)
            && (own == "" && reports != "" ==> format == reports)
            && (own == "" && reports == "" ==> format == global)
  {
    var own := config.Get("report." + report + ".dateformat");
    if own != "" then own
    else
      var reports := config.Get("dateformat.report");
      if reports != "" then reports else config.Get("dateformat")
  }

  /** The date whose epoch seconds `atoi` reads from `stamp`, formatted with
      the global date format. */
  function DateCell(stamp: string, config: Config, withTime: bool): Cell
  {
    FormattedDate(Atoi(stamp), config.Get("dateformat"), withTime)
  }

  /** A cell read from an attribute, present only when the attribute is
      not empty. */
  function WhenSet(value: string, cell: Cell): Option<Cell>
  {
    if value != "" then Some(cell) else None
  }

  /** The cell column `n` holds for task `t`, or None when it adds none. */
  function CellFor(n: Name, t: Task, config: Config, report: string): Option<Cell>
  {
    var entry, start, end := t.Get("entry"), t.Get("start"), t.Get("end");
    match n
    case Id => Some(if t.id != 0 then Integer(t.id) else Plain("-"))
    case Uuid => Some(Plain(t.Get("uuid")))
    case Project => Some(Plain(t.Get("project")))
    case Priority => Some(Plain(t.Get("priority")))
    case PriorityLong => Some(Plain(ExpandPriority(t.Get("priority"))))
    case Entry => WhenSet(entry, DateCell(entry, config, false))
    case EntryTime => WhenSet(entry, DateCell(entry, config, true))
    case Start => WhenSet(start, DateCell(start, config, false))
    case StartTime => WhenSet(start, DateCell(start, config, true))
    case End => WhenSet(end, DateCell(end, config, false))
    case EndTime => WhenSet(end, DateCell(end, config, true))
    case Due => Some(DueDateText(t, DueDateFormat(config, report)))
    case Age => WhenSet(entry, Elapsed(Atoi(entry), false))
    case AgeCompact => WhenSet(entry, Elapsed(Atoi(entry), true))
    case Active => if t.Has("start") then Some(Plain("*")) else None
    case Tags => Some(Plain(Join(t.tags, " ")))
    case DescriptionOnly => Some(Plain(t.Get("description")))
    case Description => Some(FullDescription(t, report))
    case Recur => WhenSet(t.Get("recur"), Plain(t.Get("recur")))
    case RecurrenceIndicator => if t.Has("recur") then Some(Plain("R")) else None
    case TagIndicator => if |t.tags| > 0 then Some(Plain("+")) else None
    case Wait => WhenSet(t.Get("wait"), DateCell(t.Get("wait"), config, false))
  }

  /** The columns that show a value for every task, and what `id` and
      `priority_long` show. */
  lemma CellForEveryRow(n: Name, t: Task, config: Config, report: string)
    ensures EveryRow(n) ==> CellFor(n, t, config, report).Some?
    ensures n == Id ==> (CellFor(n, t, config, report) == Some(Plain("-")) <==> t.id == 0)
    ensures n == PriorityLong ==> CellFor(n, t, config, report) == Some(Plain(ExpandPriority(t.Get("priority"))))
  {
  }

  /** The date, age, recur and wait columns show a cell exactly when the
      attribute they read is non-empty. */
  lemma CellForOptional(n: Name, t: Task, config: Config, report: string)
    ensures var c := CellFor(n, t, config, report);
            && (n in {Entry, EntryTime, Age, AgeCompact} ==> (c.Some? <==> t.Get("entry") != ""))
            && (n in {Start, StartTime} ==> (c.Some? <==> t.Get("start") != ""))
            && (n in {End, EndTime} ==> (c.Some? <==> t.Get("end") != ""))
            && (n == Recur ==> (c.Some? <==> t.Get("recur") != ""))
            && (n == Wait ==> (c.Some? <==> t.Get("wait") != ""))
  {
  }

  /** The indicator columns show their mark exactly when the task has a
      start, a recurrence or a tag; a task with no attributes and no tags
      gets a cell only in the every-row columns. */
  lemma CellForIndicators(n: Name, t: Task, config: Config, report: string)
    ensures var c := CellFor(n, t, config, report);
            && (n == Active ==> (c.Some? <==> t.Has("start")) && (c.Some? ==> c.value == Plain("*")))
            && (n == RecurrenceIndicator ==> (c.Some? <==> t.Has("recur")) && (c.Some? ==> c.value == Plain("R")))
            && (n == TagIndicator ==> (c.Some? <==> |t.tags| > 0) && (c.Some? ==> c.value == Plain("+")))
            && (!EveryRow(n) && t.attributes == map[] && t.tags == [] ==> c.None?)
  {
  }

  predicate Emits(n: Name, t: Task, config: Config, report: string)
  {
    CellFor(n, t, config, report).Some?
  }

  /** The cells the tasks give column `n`, task by task. */
  function CellsOf(n: Name, ts: seq<Task>, config: Config, report: string): (cs: seq<Option<Cell>>)
    ensures |cs| == |ts|
    ensures forall i :: 0 <= i < |ts| ==> cs[i] == CellFor(n, ts[i], config, report)
  {
    seq(|ts|, i requires 0 <= i < |ts| => CellFor(n, ts[i], config, report))
  }

  /** How many of the first `end` cells are present. */
  function Count(cs: seq<Option<Cell>>, end: nat): (k: nat)
    requires end <= |cs|
    ensures k <= end
  {
    if end == 0 then 0
    else Count(cs, end - 1) + (if cs[end - 1].Some? then 1 else 0)
  }

  /** Where a cell loop over the first `end` cells puts them, by row.
      Unpacked, the cell of task i goes on row i; packed, a row counter
      advanced only when a cell is added decides the row. */
  function Layout(cs: seq<Option<Cell>>, packed: bool, end: nat): map<nat, Cell>
    requires end <= |cs|
  {
    if end == 0 then map[]
    else
      var earlier := Layout(cs, packed, end - 1);
      match cs[end - 1]
      case None => earlier
      case Some(v) => earlier[(if packed then Count(cs, end - 1) else end - 1) := v]
  }

  lemma {:induction false} LayoutByIndex(cs: seq<Option<Cell>>, end: nat, i: nat)
    requires end <= |cs|
    ensures i in Layout(cs, false, end) <==> i < end && cs[i].Some?
    ensures i in Layout(cs, false, end) ==> Some(Layout(cs, false, end)[i]) == cs[i]
  {
    if end > 0 {
      LayoutByIndex(cs, end - 1, i);
    }
  }

  lemma {:induction false} PackedRows(cs: seq<Option<Cell>>, end: nat, row: nat)
    requires end <= |cs|
    ensures row in Layout(cs, true, end) <==> row < Count(cs, end)
  {
    if end > 0 {
      PackedRows(cs, end - 1, row);
    }
  }

  lemma {:induction false} CountAll(cs: seq<Option<Cell>>, end: nat)
    requires end <= |cs|
    ensures Count(cs, end) == end <==> forall i :: 0 <= i < end ==> cs[i].Some?
  {
    if end > 0 {
      CountAll(cs, end - 1);
    }
  }

  lemma {:induction false} PackedCell(cs: seq<Option<Cell>>, end: nat, j: nat)
    requires j < end <= |cs| && cs[j].Some?
    ensures Count(cs, j) in Layout(cs, true, end)
    ensures Some(Layout(cs, true, end)[Count(cs, j)]) == cs[j]
  {
    if j < end - 1 {
      PackedCell(cs, end - 1, j);
      CountGrows(cs, j + 1, end - 1);
    }
  }

  lemma {:induction false} CountGrows(cs: seq<Option<Cell>>, start: nat, end: nat)
    requires start <= end <= |cs|
    ensures Count(cs, start) <= Count(cs, end)
  {
    if start < end {
      CountGrows(cs, start, end - 1);
    }
  }

  /** How many of the first `end` tasks get a cell in column `n`. */
  function EmittedBefore(n: Name, ts: seq<Task>, config: Config, report: string, end: nat): nat
    requires end <= |ts|
  {
    Count(CellsOf(n, ts, config, report), end)
  }

  /** How many of the tasks get a cell in column `n`. */
  function Emitted(n: Name, ts: seq<Task>, config: Config, report: string): nat
  {
    EmittedBefore(n, ts, config, report, |ts|)
  }

  /** The cells of column `n` after its loop over the tasks, by row: for
      every column but `wait` the loop index is the row; `wait` keeps its own
      row counter. */
  function Placed(n: Name, ts: seq<Task>, config: Config, report: string): map<nat, Cell>
  {
    Layout(CellsOf(n, ts, config, report), n == Wait, |ts|)
  }

  /** In every column but `wait`, task i's cell (if it has one) is on row i,
      and a row whose task adds no cell has none. */
  lemma PlacedByIndex(n: Name, ts: seq<Task>, config: Config, report: string, i: nat)
    requires n != Wait
    ensures i in Placed(n, ts, config, report) <==> i < |ts| && Emits(n, ts[i], config, report)
    ensures i in Placed(n, ts, config, report) ==> Some(Placed(n, ts, config, report)[i]) == CellFor(n, ts[i], config, report)
  {
    LayoutByIndex(CellsOf(n, ts, config, report), |ts|, i);
  }

  /** The `wait` column's cells fill rows 0 .. k-1 without gaps, where k is
      the number of tasks that have a wait date. */
  lemma WaitRows(ts: seq<Task>, config: Config, report: string, row: nat)
    ensures row in Placed(Wait, ts, config, report) <==> row < Emitted(Wait, ts, config, report)
  {
    PackedRows(CellsOf(Wait, ts, config, report), |ts|, row);
  }

  /** All of the first `end` tasks add a cell exactly when as many cells
      are added. */
  lemma EmittedAll(n: Name, ts: seq<Task>, config: Config, report: string, end: nat)
    requires end <= |ts|
    ensures EmittedBefore(n, ts, config, report, end) == end <==> forall i :: 0 <= i < end ==> Emits(n, ts[i], config, report)
  {
    CountAll(CellsOf(n, ts, config, report), end);
  }

  /** Task j's wait date lands on row k, where k is the number of earlier
      tasks that have one: the k+1-th task with a wait date is on row k. That
      is task j's own row only when every earlier task has a wait date; once
      one of them lacks it, the cell sits on a row above its task's. */
  lemma WaitCellRow(ts: seq<Task>, config: Config, report: string, j: nat)
    requires j < |ts| && Emits(Wait, ts[j], config, report)
    ensures var k := EmittedBefore(Wait, ts, config, report, j);
            && k in Placed(Wait, ts, config, report)
            && Some(Placed(Wait, ts, config, report)[k]) == CellFor(Wait, ts[j], config, report)
            && k <= j
            && (k == j <==> forall i :: 0 <= i < j ==> Emits(Wait, ts[i], config, report))
  {
    PackedCell(CellsOf(Wait, ts, config, report), |ts|, j);
    EmittedAll(Wait, ts, config, report, j);
  }

  /** Two tasks, the first without a wait date: the second one's wait date
      is shown on the first row, and the second row has no wait cell. */
  lemma WaitCellOnWrongRow(config: Config, report: string)
    ensures var first := Task(1, map[], []);
            var second := Task(2, map["wait" := "7"], []);
            var cells := Placed(Wait, [first, second], config, report);
            && cells.Keys == {0}
            && Some(cells[0]) == CellFor(Wait, second, config, report)
  {
    var first := Task(1, map[], []);
    var second := Task(2, map["wait" := "7"], []);
    var ts := [first, second];
    CellForOptional(Wait, first, config, report);
    CellForOptional(Wait, second, config, report);
    WaitCellRow(ts, config, report, 1);
    var cells := Placed(Wait, ts, config, report);
    forall row | row in cells ensures row == 0 {
      WaitRows(ts, config, report, row);
    }
  }
}
