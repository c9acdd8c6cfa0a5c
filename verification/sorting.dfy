/** The sort rules a report registers on its table: each sort token names a
    column and, in its last character, a direction; the column's name picks
    the comparison family. */
module Sorting {
  import opened Strings
  import opened Tables
  import opened Columns
  import opened Validation

  /** The comparison family for a sort column. `until` is listed, although
      it is not a column name and so never survives sort validation. */
  function SortFamily(column: string): (f: Family)
    ensures f == Numeric <==> column == "id"
    ensures f == PriorityOrder <==> column == "priority"
    ensures f == Chronological <==> column in {"entry", "start", "wait", "until", "end"}
    ensures f == DueDate <==> column == "due"
    ensures f == Period <==> column == "recur"
  {
    if column == "id" then Numeric
    else if column == "priority" then PriorityOrder
    else if column == "entry" || column == "start" || column == "wait" || column == "until" || column == "end" then Chronological
    else if column == "due" then DueDate
    else if column == "recur" then Period
    else Character
  }

  /** Ascending exactly when the direction character is '+'; any other
      character means descending. */
  function Ascending(direction: char): bool
  {
    direction == '+'
  }

  /** What `columnIndex` holds once filled: each column name, mapped to the
      last position it occupies. */
  ghost predicate IsColumnIndex(m: map<string, nat>, columns: seq<string>)
  {
    && (forall x :: x in m <==> x in columns)
    && (forall x :: x in m ==> m[x] == LastIndexOf(columns, x))
  }

  /** The loop that fills `columnIndex`. */
  method BuildColumnIndex(columns: seq<string>) returns (m: map<string, nat>)
    ensures IsColumnIndex(m, columns)
  {
    m := map[];
    for c := 0 to |columns|
      invariant IsColumnIndex(m, columns[..c])
    {
      assert columns[..c + 1][..c] == columns[..c];
      m := m[columns[c] := c];
    }
    assert columns[..|columns|] == columns;
  }

  /** The rule one validated sort token registers: on the (last) column of
      that name, in the column's family, ascending iff the token ends in '+'. */
  function RuleFor(columns: seq<string>, token: string): (rule: SortRule)
    requires |token| > 0 && ColumnPart(token) in columns
    ensures rule.column < |columns| && columns[rule.column] == ColumnPart(token)
    ensures rule.family == SortFamily(ColumnPart(token))
    ensures rule.ascending <==> token[|token| - 1] == '+'
  {
    var column := ColumnPart(token);
    SortRule(LastIndexOf(columns, column), SortFamily(column), Ascending(token[|token| - 1]))
  }

  /** Sort tokens that passed validation against a list of column names. */
  predicate TokensValid(columns: seq<string>, sortOrder: seq<string>)
  {
    forall k :: 0 <= k < |sortOrder| ==> |sortOrder[k]| > 0 && ColumnPart(sortOrder[k]) in columns
  }

  /** Once the columns are known names, a token whose column part is one of
      them cannot be empty (the empty token's column part is "", which no
      column is called). */
  lemma ValidatedTokensNonEmpty(columns: seq<string>, sortOrder: seq<string>)
    requires AllColumnNames(columns) && SortColumnsValid(columns, sortOrder)
    ensures TokensValid(columns, sortOrder)
  {
    forall k | 0 <= k < |sortOrder| ensures |sortOrder[k]| > 0 {
      AllColumnNamesHave(columns, ColumnPart(sortOrder[k]));
    }
  }

  /** The rules registered for the first `end` sort tokens, in token order. */
  function SortRules(columns: seq<string>, sortOrder: seq<string>, end: nat): (rules: seq<SortRule>)
    requires TokensValid(columns, sortOrder) && end <= |sortOrder|
    ensures |rules| == end
  {
    if end == 0 then []
    else SortRules(columns, sortOrder, end - 1) + [RuleFor(columns, sortOrder[end - 1])]
  }

  /** One rule per token, the k-th rule coming from the k-th token. */
  lemma {:induction false} SortRulesAt(columns: seq<string>, sortOrder: seq<string>, end: nat, k: nat)
    requires TokensValid(columns, sortOrder) && end <= |sortOrder|
    ensures k < end ==> SortRules(columns, sortOrder, end)[k] == RuleFor(columns, sortOrder[k])
  {
    if end > 0 {
      SortRulesAt(columns, sortOrder, end - 1, k);
    }
  }
}
