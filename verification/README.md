# Custom report assembler

This project models taskwarrior's custom report engine (`src/custom.cpp`) and proves properties of the model. The engine takes a named report's configuration: its column names, optional column labels, sort tokens such as `due+,priority-`, and the tasks its filter selected. It works in these steps:

1. It rejects unknown column names and sort tokens whose column is not in the report, listing every offender in one message. It also rejects a non-empty label list whose length differs from the column list.
2. It copies a report-filter `limit` into the context when the command line gave none.
3. It builds a table with one row per task and one column per requested name. Each name picks a default label, width policy, justification and cell rule.
4. It registers one sort rule per sort token and colours rows and due cells.
5. It resolves the row limit and produces the output text and the return code.

The model is organised as follows:

- `Tables.Table` is a class whose methods update its fields in place. It mirrors the table primitive the assembler drives: `addRow`, `addColumn`, `setColumnWidth`, `addCell`, `sortOn`, `setRowColor`, `setCellColor`, and so on. `Snapshot()` is its value view.
- `Report.RunCustomReport` is a method that performs those calls in the source's order and loops.
- Its result is proved equal to the specification function `Report.ReportGrid`, whose properties are proved as lemmas.
- The validators are methods with loops, proved against specification functions.
- The per-column cell rules, the sort-family mapping, the limit resolution and the summary are functions.

Three behaviours of the code that a reader might not expect are modelled as written:

- **Due-cell colour for tasks that are not due.** The code blends `color.due` into the due cell of every task that is not overdue. That includes tasks that are not due at all, not only imminent ones.
- **Column that receives the due colour.** The code sets that colour at column `columnCount`. After the column loop, `columnCount` is one past the last column, so the colour never lands on the `due` column itself (`Report.DueColorsMissDueColumn`).
- **Rows of the `wait` column.** The `wait` column keeps its own row counter and advances it only when it adds a cell. Wait dates are therefore packed into the first rows rather than placed on their tasks' rows (`Columns.WaitCellRow`, `Columns.WaitCellOnWrongRow`).

The surrounding code is modelled as follows:

- Configuration strings are taken as already split lists.
- Formatting and colour primitives are symbolic values: a `Cell` or `Color` constructor records its inputs, not the rendered text.
- The due-state classifier, the table renderer and the optional blank line are parameters.

## Model

| member | source | states |
|---|---|---|
| Columns.NameOf | src/custom.cpp:175-506 | a name selects a kind only when it is exactly that kind's name |
| Columns.NameOfText | src/custom.cpp:664-687 | each of the 22 names selects its own kind, so the names are pairwise different |
| Columns.ColumnNameIsText | src/custom.cpp:664-687 | a string is accepted as a column name exactly when it is the name of some kind |
| Columns.AllColumnNamesHave | src/custom.cpp:660-695 | every name of a list that passes the column check is a column name |
| Columns.NamesOfAt | src/custom.cpp:173-175 | the i-th kind of a checked list is the kind its i-th name selects, and that kind's name is the i-th name |
| Columns.NamesOfLastIndex | src/custom.cpp:126-129 | a kind's last position in the list of kinds is its name's last position in the list of names |
| Validation.ValidReportColumns | src/custom.cpp:660-695 | passes exactly when every name is one of the 22 column names; otherwise fails with "Unrecognized column name: " followed by every unknown name, in order, joined by ", " |
| Validation.UnknownColumnsExact | src/custom.cpp:664-687 | the collected names are exactly the input names that are not column names; none are collected iff all names are valid |
| Validation.ValidSortColumns | src/custom.cpp:699-721 | passes exactly when the column part of every sort token (all but its last character) is one of the report's columns; otherwise fails with "Sort column is not part of the report: " and every offending token |
| Validation.BadSortTokensExact | src/custom.cpp:704-714 | the collected tokens are exactly those whose column part is not a report column; none are collected iff the sort order is valid |
| Validation.BuildColumnLabels | src/custom.cpp:126-129 | the label map is empty without labels; with labels it has every column name as a key, mapped to the label at the name's last position |
| Validation.HeaderFor | src/custom.cpp:177 | a column header is never empty |
| Validation.LabelMapHeads | src/custom.cpp:126-129 | looking a column's name up in the label map built for the report gives the header of the column's kind |
| Validation.HeaderOfColumn | src/custom.cpp:177 | a column's header is its default label when no labels are given; with labels and a name that is not repeated later, it is the column's own label, or the default when that label is empty |
| Validation.LabelOf | src/custom.cpp:177 | a column's header is its entry in the label map when that entry is not empty, otherwise its kind's default label; `LabelMapHeads` proves it equal to `HeaderFor` for every column of a checked report |
| Validation.LabelCountMismatch | src/custom.cpp:122 | the label check fails exactly when the label list is non-empty and its length differs from the column list's; `RunCustomReport` returns the label-count error in that case once the column names pass |
| Strings.ColumnPart | src/custom.cpp:546 | a non-empty token is its column part followed by one direction character; the empty token has the empty column part |
| Strings.LastIndexOf | src/custom.cpp:129 | -1 iff the value is absent; otherwise an index that holds the value |
| Strings.LastIndexOfIsLast | src/custom.cpp:129 | no index after the one found holds the value |
| Strings.LastIndexBeforeEnd | src/custom.cpp:375 | a forward scan that remembers the latest match finds the last occurrence among the elements scanned |
| Strings.AtoiOfDecimalThen | src/custom.cpp:639 | atoi reads back the decimal text of any natural number followed by text that does not start with a digit |
| Strings.AtoiOfDecimal | src/custom.cpp:639 | atoi reads back any decimal numeral: `Atoi(NatToString(n)) == n` |
| Strings.Atoi | src/custom.cpp:639 | C `atoi`: leading white space, an optional sign, then the digits up to the first non-digit; `AtoiOfDecimal`, `AtoiOfDecimalThen` and `AtoiOfNegativeDecimal` prove it reads back every decimal numeral |
| Strings.AtoiOfNegativeDecimal | src/custom.cpp:639 | atoi reads back a minus sign followed by a decimal numeral as the negative number |
| Records.Task.Set | src/custom.cpp:148-149 | the set attribute is present with the new value; id, tags and every other attribute are unchanged |
| Columns.DefaultKind | src/custom.cpp:175-510 | every column name has a non-empty default label; the width policy is flexible exactly for `description` and `description_only` |
| Columns.ExpandPriority | src/custom.cpp:230-236 | H, M and L expand to High, Medium and Low; any other value, empty included, is shown unchanged |
| Columns.DueDateFormat | src/custom.cpp:364-368 | the first non-empty of the report's date format, `dateformat.report` and `dateformat` |
| Columns.CellForEveryRow | src/custom.cpp:175-468 | the nine every-row columns always give a cell; `id` shows "-" exactly for id 0; `priority_long` shows the expanded priority |
| Columns.CellForOptional | src/custom.cpp:242-522 | the entry, start, end, age, recur and wait columns give a cell exactly when the attribute they read is non-empty |
| Columns.CellForIndicators | src/custom.cpp:420-505 | the active, R and + indicators appear exactly when start, recur or a tag is present; a task with no attributes and no tags gets cells only in the every-row columns |
| Columns.CellFor | src/custom.cpp:181-522 | the cell each column kind adds for a task, or none; its properties are stated by `CellForEveryRow`, `CellForOptional` and `CellForIndicators` |
| Columns.DateCell | src/custom.cpp:254-255 | a date cell holds the epoch seconds atoi reads from the attribute, formatted with the global `dateformat` |
| Columns.PlacedByIndex | src/custom.cpp:182-187 | in every column but `wait`, row i has a cell exactly when task i gives one, and it is that cell |
| Columns.WaitRows | src/custom.cpp:512-522 | the `wait` cells occupy exactly rows 0 to n-1, where n is the number of tasks with a wait date |
| Columns.EmittedAll | src/custom.cpp:512-522 | all of the first tasks give a cell iff as many cells are given |
| Columns.WaitCellRow | src/custom.cpp:512-522 | task j's wait date lands on row k, the number of earlier tasks with one; k <= j, and k == j iff every earlier task has a wait date |
| Columns.WaitCellOnWrongRow | src/custom.cpp:512-522 | with a first task lacking a wait date and a second having one, the only wait cell is on row 0 and holds the second task's date |
| Sorting.SortFamily | src/custom.cpp:549-585 | id sorts numerically, priority by priority, entry/start/wait/until/end chronologically, due by due date, recur by period, and every other column by characters |
| Sorting.BuildColumnIndex | src/custom.cpp:539-541 | the index has exactly the column names as keys, each mapped to the last position of that name |
| Sorting.RuleFor | src/custom.cpp:543-586 | a token's rule sorts on a column bearing the token's column part, in that column's family, ascending exactly when the token ends in '+' |
| Sorting.Ascending | src/custom.cpp:552-584 | a sort rule is ascending exactly when the direction character is '+'; every other character sorts descending (`RuleFor` states it per token) |
| Sorting.ValidatedTokensNonEmpty | src/custom.cpp:545-546 | after both checks every sort token is non-empty, so taking its last character as the direction is defined |
| Sorting.SortRulesAt | src/custom.cpp:543-586 | one rule per token, the k-th rule coming from the k-th token |
| Report.Context.AdoptReportLimit | src/custom.cpp:147-149 | the context task becomes `AdoptedLimit` of its old value and the report filter |
| Report.AdoptedLimit | src/custom.cpp:147-149 | a limit is present afterwards iff the command line or the report filter has one; the command line's wins; no other attribute, the id or the tags change |
| Report.ReportMaximum | src/custom.cpp:634-639 | the atoi of the context's limit when present, otherwise the report's configured limit |
| Report.CommandLineLimitWins | src/custom.cpp:634-639 | a command-line `limit:N` yields a maximum of N, whatever the report filter says |
| Report.ReportFilterLimitApplies | src/custom.cpp:147-149 | without a command-line limit, a report-filter `limit:N` yields a maximum of N |
| Report.Summary | src/custom.cpp:641-656 | return code 1 iff there are no rows, with the text "No matches.\n"; otherwise return code 0, the text starting with the blank line and the rendered table and ending with the count line |
| Report.CountLineReadsBack | src/custom.cpp:646-648 | the count line begins with the row count: atoi reads the count back from it |
| Report.CountLine | src/custom.cpp:646-648 | the row count in decimal, then " task" for one row and " tasks" otherwise, then a newline; `CountLineReadsBack` and `CountLineNoun` state it |
| Report.CountLineNoun | src/custom.cpp:647 | the count line is "1 task\n" exactly for one row; any other count ends in " tasks\n" |
| Report.DueUrgency | src/custom.cpp:597-609 | a task without a due date is not due; overdue iff the due state is 2; imminent iff it is 1 |
| Report.DueCellColor | src/custom.cpp:613-620 | the row colour blended with `color.overdue` for an overdue task and with `color.due` for every other task |
| Report.RowColor | src/custom.cpp:613-614 | a row's colour is the task's `fg` and `bg` parsed together and then passed through the automatic colour rules; `RowColorsAt` and `Colorize` state that every row receives it when colour is on |
| Report.ColorOn | src/custom.cpp:611 | colour is on exactly when `color` or `_forcecolor` is set; `Colorize` colours rows only then |
| Report.UnderlineOn | src/custom.cpp:528-529 | solid underlines need colour on and `fontunderline` set; `Underlines` and `UnderlineColumn` state the solid or dashed outcome |
| Report.RowColorsAt | src/custom.cpp:611-615 | exactly the rows of tasks get a row colour, each its own task's |
| Report.DueCellColorsAt | src/custom.cpp:617-621 | the due colours go to exactly one cell per task row, all in the one given column, each holding its task's due colour |
| Report.DueColorsMissDueColumn | src/custom.cpp:617-621 | every due colour is set on column `columnCount`, one past the last column, never on the `due` column |
| Report.Underlines | src/custom.cpp:528-532 | solid underlines are on exactly the columns below the count when colour and the underline font are on, and on none otherwise |
| Report.ReportColumnCell | src/custom.cpp:172-535 | column i carries the header of its kind and, unless it is `wait`, task r's cell on row r exactly when the column gives task r one |
| Report.ReportGridCell | src/custom.cpp:172-535 | in a built report, column i is of the kind its name selects and, unless it is `wait`, holds task r's cell on row r, under the column's header |
| Report.ReportGridSortRule | src/custom.cpp:537-586 | in a built report, the k-th sort rule follows the k-th token: its column's name, its family, its direction |
| Report.AddRows | src/custom.cpp:167-168 | one row is added per task, and nothing else changes |
| Report.PlaceByRow | src/custom.cpp:182-187 | the cell loop of every column but `wait` leaves that column's cells equal to the placement by task index |
| Report.PlaceWait | src/custom.cpp:512-522 | the `wait` cell loop leaves the column's cells equal to the packed placement |
| Report.AddReportColumn | src/custom.cpp:175-524 | one dispatch branch appends exactly the column built for the name and header, and changes nothing else |
| Report.AddColumnAt | src/custom.cpp:175-177 | the branch for column i is headed by its label when one is set and not empty, otherwise by its kind's default label |
| Report.UnderlineColumn | src/custom.cpp:527-532 | a solid underline on the column when colour and the underline font are on, otherwise the dashed table underline |
| Report.AddColumnStep | src/custom.cpp:173-534 | one turn of the column loop extends the built columns and the underlines by one column |
| Report.AddColumns | src/custom.cpp:170-535 | the column loop builds every column in order, sets the underline style, returns the column count and the last position of `due` (or -1) |
| Report.RegisterSortRules | src/custom.cpp:537-586 | the sort loop appends the rules of the tokens, in token order |
| Report.ColorRow | src/custom.cpp:593-622 | with colour on, one turn colours its row and, when there is a due column, cell (row, columnCount); with colour off, nothing changes |
| Report.Colorize | src/custom.cpp:588-623 | with colour on, every row gets its colour and, when there is a due column, cell (row, columnCount) gets the blended due colour; with colour off, nothing changes |
| Report.BuildTable | src/custom.cpp:161-623 | the table has one row per task, the built columns, the underline style, one sort rule per token and, with colour on, the row and due colours |
| Report.RunCustomReport | src/custom.cpp:104-657 | the error order is unknown columns, then label count, then sort tokens, each with its message and with the context unchanged; succeeds iff all three hold; on success the context adopts the limit, the table equals `ReportGrid`, and the maximum and the summary are as specified |
| Tables.Table.AddCell | src/custom.cpp:182-187 | puts the value in the given column at the given row, overwriting any cell there; nothing else changes |
| Tables.Table.SetCellColor | src/custom.cpp:620 | records the colour at the given coordinates, whether or not that column exists |

## Left out

- `handleCustomReport` reads the configuration, parses the filter and loads tasks from the database. It is not part of this model: the locking, recurrence handling, loading and committing are I/O on the task store. The model takes the loaded tasks as an input.
- `split` turns configuration strings into lists. text.cpp is not part of this model, so columns, labels and sort tokens are inputs as lists.
- The filter parsing (`context.parse`) and the sequence merge (`context.sequence.combine`, `applySequence`) are not modelled. Neither is appending the report filter's terms to the global filter. The model takes the parsed report-filter task as an input and keeps only its `limit`.
- Date and duration formatting (`Date::toString`, `formatSeconds`, the current time) are not modelled. Nor are `getDueDate`, `getFullDescription` and tag joining beyond a space separator. They are recorded as symbolic cells.
- `getDueState` is a parameter. The due-date thresholds belong to it.
- `initializeColorRules`, `autoColorize` and `Color::blend` are symbolic colour values. The alternate row colour (`color.alternate`, `nontrivial`) is not modelled, because whether a colour is trivial is colour-parsing logic outside this file.
- `Table::render`, width negotiation, `setTableWidth`, `setDateFormat`, `setReportName` and the sort comparators are not modelled. The renderer is a parameter that receives the finished table and the row limit.
- The parsing behind `getBoolean` and `getInteger` is not modelled. A configuration is given as strings, a set of true flags and integer values.
- `optionalBlankLine` is a parameter: the blank-line text.
- Strings.ColumnPart: strings are sequences of characters, not bytes, so a token ending in a multi-byte character loses that whole character, where the source's `substr (0, length () - 1)` drops only its last byte.
- Validation.ValidSortColumns: because of the character model of `ColumnPart`, a token such as `dueé` with a column `due` passes the check, where the source compares the name plus a stray byte and rejects it.
- Sorting.RuleFor: takes the column part of a token character-wise, as `ColumnPart` does, not byte-wise.
- Strings.Atoi: does not model overflow of C `atoi` on numerals beyond the range of `int`.
- `Report.RunCustomReport` returns an error value where the source throws a string.
