/** The configuration checks made before a report is assembled: unknown
    column names, sort tokens naming no requested column, a label list of
    the wrong length. Each check collects every offender before failing.
    Also the label overrides a report configures for its columns. */
module Validation {
  import opened Wrappers
  import opened Strings
  import opened Columns

  /** The names in `columns` that are not column names, in input order. */
  function UnknownColumns(columns: seq<string>): seq<string>
  {
    if |columns| == 0 then []
    else
      var last := columns[|columns| - 1];
      UnknownColumns(columns[..|columns| - 1]) + (if IsColumnName(last) then [] else [last])
  }

  lemma {:induction false} UnknownColumnsExact(columns: seq<string>)
    ensures forall x :: x in UnknownColumns(columns) <==> x in columns && !IsColumnName(x)
    ensures UnknownColumns(columns) == [] <==> AllColumnNames(columns)
    ensures |UnknownColumns(columns)| <= |columns|
  {
    if |columns| > 0 {
      var init := columns[..|columns| - 1];
      UnknownColumnsExact(init);
      assert columns == init + [columns[|columns| - 1]];
      assert forall i :: 0 <= i < |init| ==> init[i] == columns[i];
    }
  }

  /** The column check of `validReportColumns`: passes when every name is a column name, and
      otherwise fails with one message listing every unknown name. */
  method ValidReportColumns(columns: seq<string>) returns (r: Outcome)
    ensures r.Pass? <==> AllColumnNames(columns)
    ensures r.Fail? ==> r.message == "Unrecognized column name: " + Join(UnknownColumns(columns), ", ")
  {
    var bad: seq<string> := [];
    for i := 0 to |columns|
      invariant bad == UnknownColumns(columns[..i])
    {
      assert columns[..i + 1][..i] == columns[..i];
      if NameOf(columns[i]).None? {
        bad := bad + [columns[i]];
      }
    }
    assert columns[..|columns|] == columns;
    UnknownColumnsExact(columns);
    if |bad| > 0 {
      r := Fail("Unrecognized column name: " + Join(bad, ", "));
    } else {
      r := Pass;
    }
  }

  /** Whether the column part of every sort token is one of the columns. */
  predicate SortColumnsValid(columns: seq<string>, sortOrder: seq<string>)
  {
    forall k :: 0 <= k < |sortOrder| ==> ColumnPart(sortOrder[k]) in columns
  }

  /** The sort tokens whose column part is none of the columns, in input order. */
  function BadSortTokens(columns: seq<string>, sortOrder: seq<string>): seq<string>
  {
    if |sortOrder| == 0 then []
    else
      var last := sortOrder[|sortOrder| - 1];
      BadSortTokens(columns, sortOrder[..|sortOrder| - 1]) + (if ColumnPart(last) in columns then [] else [last])
  }

  lemma {:induction false} BadSortTokensExact(columns: seq<string>, sortOrder: seq<string>)
    ensures forall x :: x in BadSortTokens(columns, sortOrder) <==> x in sortOrder && ColumnPart(x) !in columns
    ensures BadSortTokens(columns, sortOrder) == [] <==> SortColumnsValid(columns, sortOrder)
  {
    if |sortOrder| > 0 {
      var init := sortOrder[..|sortOrder| - 1];
      BadSortTokensExact(columns, init);
      assert sortOrder == init + [sortOrder[|sortOrder| - 1]];
      assert forall i :: 0 <= i < |init| ==> init[i] == sortOrder[i];
    }
  }

  /** `validSortColumns`: passes when the column part of every sort token is
      one of the report's columns, and otherwise fails with one message
      listing every offending token. */
  method ValidSortColumns(columns: seq<string>, sortOrder: seq<string>) returns (r: Outcome)
    ensures r.Pass? <==> SortColumnsValid(columns, sortOrder)
    ensures r.Fail? ==> r.message == "Sort column is not part of the report: " + Join(BadSortTokens(columns, sortOrder), ", ")
  {
    var bad: seq<string> := [];
    for s := 0 to |sortOrder|
      invariant bad == BadSortTokens(columns, sortOrder[..s])
    {
      assert sortOrder[..s + 1][..s] == sortOrder[..s];
      var column := ColumnPart(sortOrder[s]);
      var co := 0;
      while co < |columns| && columns[co] != column
        invariant 0 <= co <= |columns|
        invariant column !in columns[..co]
      {
        co := co + 1;
      }
      assert co < |columns| ==> column in columns;
      if co == |columns| {
        assert columns[..co] == columns;
        bad := bad + [sortOrder[s]];
      }
    }
    assert sortOrder[..|sortOrder|] == sortOrder;
    BadSortTokensExact(columns, sortOrder);
    if |bad| > 0 {
      r := Fail("Sort column is not part of the report: " + Join(bad, ", "));
    } else {
      r := Pass;
    }
  }

  /** A non-empty label list must have one label per column. */
  predicate LabelCountMismatch(columns: seq<string>, labels: seq<string>)
  {
    |columns| != |labels| && |labels| != 0
  }

  function LabelCountMessage(report: string): string
  {
    "There are a different number of columns than labels for report '" + report + "'."
  }

  /** What the label map built from `columns` and `labels` holds: nothing
      when there are no labels, and otherwise, for each column name, the
      label at the name's last position (a later entry for a repeated name
      overwrites an earlier one). */
  ghost predicate IsLabelMap(m: map<string, string>, columns: seq<string>, labels: seq<string>)
    requires |labels| == 0 || |labels| == |columns|
  {
    && (|labels| == 0 ==> m == map[])
    && (|labels| != 0 ==>
          && (forall x :: x in m <==> x in columns)
          && (forall x :: x in m ==> m[x] == labels[LastIndexOf(columns, x)]))
  }

  /** The loop that fills `columnLabels`. */
  method BuildColumnLabels(columns: seq<string>, labels: seq<string>) returns (m: map<string, string>)
    requires |labels| == 0 || |labels| == |columns|
    ensures IsLabelMap(m, columns, labels)
  {
    m := map[];
    if |labels| != 0 {
      for i := 0 to |columns|
        invariant forall x :: x in m <==> x in columns[..i]
        invariant forall x :: x in m ==> m[x] == labels[LastIndexOf(columns[..i], x)]
      {
        assert columns[..i + 1][..i] == columns[..i];
        m := m[columns[i] := labels[i]];
      }
      assert columns[..|columns|] == columns;
    }
  }

  /** The header of the column called `name`, of kind `n`: its entry in the
      label map when that entry exists and is not empty, otherwise the kind's
      default label. */
  function LabelOf(m: map<string, string>, name: string, n: Name): string
  {
    if name in m && m[name] != "" then m[name] else DefaultKind(n).defaultLabel
  }

  /** The header of the column of kind `n` in a report whose columns are
      `names`: the label at the kind's last position when there are labels
      and that one is not empty, otherwise the kind's default label. */
  function HeaderFor(names: seq<Name>, labels: seq<string>, n: Name): (header: string)
    requires |labels| == 0 || |labels| == |names|
    ensures header != ""
  {
    var at := LastIndexOf(names, n);
    if |labels| != 0 && at != -1 && labels[at] != "" then labels[at] else DefaultKind(n).defaultLabel
  }

  /** Every column's label lookup gives its header. */
  ghost predicate LabelsHead(m: map<string, string>, columns: seq<string>, names: seq<Name>, labels: seq<string>)
    requires |columns| == |names| && (|labels| == 0 || |labels| == |names|)
  {
    forall i :: 0 <= i < |names| ==> LabelOf(m, columns[i], names[i]) == HeaderFor(names, labels, names[i])
  }

  /** Looking a column's name up in the label map built for the report gives
      that column's header. */
  lemma LabelMapHeads(m: map<string, string>, columns: seq<string>, labels: seq<string>)
    requires AllColumnNames(columns) && (|labels| == 0 || |labels| == |columns|)
    requires IsLabelMap(m, columns, labels)
    ensures LabelsHead(m, columns, NamesOf(columns), labels)
  {
    var names := NamesOf(columns);
    forall i | 0 <= i < |names|
      ensures LabelOf(m, columns[i], names[i]) == HeaderFor(names, labels, names[i])
    {
      NamesOfAt(columns, i);
      NamesOfLastIndex(columns, names[i]);
    }
  }

  /** The header of column i: without labels, the default; with labels, the
      label of the last column of the same kind (that is column i's own when
      the kind is not repeated) unless that label is empty. */
  lemma HeaderOfColumn(names: seq<Name>, labels: seq<string>, i: nat)
    requires |labels| == 0 || |labels| == |names|
    requires i < |names|
    ensures |labels| == 0 ==> HeaderFor(names, labels, names[i]) == DefaultKind(names[i]).defaultLabel
    ensures |labels| != 0 && (forall k :: i < k < |names| ==> names[k] != names[i]) ==>
              HeaderFor(names, labels, names[i]) == (if labels[i] != "" then labels[i] else DefaultKind(names[i]).defaultLabel)
  {
    if |labels| != 0 && (forall k :: i < k < |names| ==> names[k] != names[i]) {
      LastIndexOfIsLast(names, names[i]);
      assert LastIndexOf(names, names[i]) == i;
    }
  }
}
