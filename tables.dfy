/**
 * pandas DataFrames as the annotation path uses them: named columns over rows of
 * Python values. `Table` is a frame's value; `Frame` is a frame object that code
 * updates in place (`df[c] = ...`). `LeftJoin` is `pd.merge(left, right, on=keys,
 * how="left")`.
 */
module Tables {
  import opened Wrappers
  import opened PyText
  import opened PyValues

  type Row = seq<Value>

  /** A frame's value: its column labels and its rows, one value per column. */
  datatype Table = Table(columns: seq<string>, rows: seq<Row>)

  predicate Distinct(names: seq<string>) {
    forall i, j :: 0 <= i < j < |names| ==> names[i] != names[j]
  }

  predicate WellFormed(t: Table) {
    Distinct(t.columns) && forall k :: 0 <= k < |t.rows| ==> |t.rows[k]| == |t.columns|
  }

  /** The position of column `name`, or `|columns|` when there is none. */
  function ColumnIndex(columns: seq<string>, name: string): (i: nat)
    ensures i <= |columns|
    ensures i < |columns| <==> name in columns
    ensures i < |columns| ==> columns[i] == name
    ensures forall j :: 0 <= j < i ==> columns[j] != name
  {
    if |columns| == 0 then 0
    else if columns[0] == name then 0
    else 1 + ColumnIndex(columns[1..], name)
  }

  lemma ColumnIndexOfDistinct(columns: seq<string>, i: nat)
    requires Distinct(columns) && i < |columns|
    ensures ColumnIndex(columns, columns[i]) == i
  {
  }

  /** The value in row `k` under column `name`. */
  function Cell(t: Table, k: nat, name: string): Value
    requires WellFormed(t) && k < |t.rows| && name in t.columns
  {
    t.rows[k][ColumnIndex(t.columns, name)]
  }

  /** `t[name]`: the column as a sequence of values, or `KeyError`. */
  function Column(t: Table, name: string): (r: Result<seq<Value>, Exc>)
    requires WellFormed(t)
    ensures r.Ok? <==> name in t.columns
    ensures r.Err? ==> r.error == KeyError(VStr(name))
    ensures r.Ok? ==> |r.value| == |t.rows|
                      && forall k :: 0 <= k < |t.rows| ==> r.value[k] == Cell(t, k, name)
  {
    if name in t.columns then
      var i := ColumnIndex(t.columns, name);
      Ok(seq(|t.rows|, k requires 0 <= k < |t.rows| => t.rows[k][i]))
    else Err(KeyError(VStr(name)))
  }

  /**
   * `t[name] = values`: an existing column is overwritten where it stands, a new one is
   * added at the right; every other cell is kept.
   */
  function WithColumn(t: Table, name: string, values: seq<Value>): (r: Table)
    requires WellFormed(t) && |values| == |t.rows|
    ensures WellFormed(r)
    ensures |r.rows| == |t.rows|
    ensures name in t.columns ==> r.columns == t.columns
    ensures name !in t.columns ==> r.columns == t.columns + [name]
    ensures forall k :: 0 <= k < |r.rows| ==> Cell(r, k, name) == values[k]
    ensures forall k, c :: 0 <= k < |r.rows| && c in t.columns && c != name ==>
              Cell(r, k, c) == Cell(t, k, c)
  {
    if name in t.columns then
      var i := ColumnIndex(t.columns, name);
      var r := Table(t.columns, seq(|t.rows|, k requires 0 <= k < |t.rows| => t.rows[k][i := values[k]]));
      assert forall k :: 0 <= k < |r.rows| ==> r.rows[k][i] == values[k];
      r
    else
      var cols := t.columns + [name];
      var r := Table(cols, seq(|t.rows|, k requires 0 <= k < |t.rows| => t.rows[k] + [values[k]]));
      assert ColumnIndex(cols, name) == |t.columns| by {
        assert cols[|t.columns|] == name;
      }
      assert forall c :: c in t.columns ==> ColumnIndex(cols, c) == ColumnIndex(t.columns, c) by {
        forall c | c in t.columns ensures ColumnIndex(cols, c) == ColumnIndex(t.columns, c) {
          ColumnIndexOfPrefix(t.columns, name, c);
        }
      }
      r
  }

  lemma {:induction false} ColumnIndexOfPrefix(columns: seq<string>, extra: string, c: string)
    requires c in columns
    ensures ColumnIndex(columns + [extra], c) == ColumnIndex(columns, c)
  {
    if columns[0] != c {
      assert (columns + [extra])[1..] == columns[1..] + [extra];
      ColumnIndexOfPrefix(columns[1..], extra, c);
    }
  }

  /** `astype(str)` of one cell. */
  function AsStr(v: Value): (r: Value)
    ensures r.VStr?
    ensures v.VStr? ==> r == v
  {
    VStr(Str(v))
  }

  /** `t[name] = t[name].astype(str)` for a column that exists. */
  function StrColumn(t: Table, name: string): (r: Table)
    requires WellFormed(t) && name in t.columns
    ensures WellFormed(r) && r.columns == t.columns && |r.rows| == |t.rows|
    ensures forall k :: 0 <= k < |r.rows| ==> Cell(r, k, name) == AsStr(Cell(t, k, name))
    ensures forall k, c :: 0 <= k < |r.rows| && c in t.columns && c != name ==>
              Cell(r, k, c) == Cell(t, k, c)
  {
    var col := Column(t, name).value;
    WithColumn(t, name, seq(|col|, k requires 0 <= k < |col| => AsStr(col[k])))
  }

  /** Stringifying a column twice changes nothing the first time did not. */
  lemma StrColumnIdempotent(t: Table, name: string)
    requires WellFormed(t) && name in t.columns
    ensures StrColumn(StrColumn(t, name), name) == StrColumn(t, name)
  {
    var once := StrColumn(t, name);
    var twice := StrColumn(once, name);
    var i := ColumnIndex(t.columns, name);
    forall k | 0 <= k < |t.rows| ensures twice.rows[k] == once.rows[k] {
      assert |twice.rows[k]| == |once.rows[k]|;
      forall j | 0 <= j < |once.rows[k]| ensures twice.rows[k][j] == once.rows[k][j] {
        ColumnIndexOfDistinct(t.columns, j);
      }
    }
  }

  /** The rows whose `name` cell is not missing: `t[~t[name].isna()]`. */
  function KeepPresent(t: Table, name: string): (r: Result<Table, Exc>)
    requires WellFormed(t)
    ensures r.Ok? <==> name in t.columns
    ensures r.Err? ==> r.error == KeyError(VStr(name))
    ensures r.Ok? ==> WellFormed(r.value) && r.value.columns == t.columns
                      && r.value.rows == PresentRows(t.rows, ColumnIndex(t.columns, name))
  {
    if name in t.columns then Ok(Table(t.columns, PresentRows(t.rows, ColumnIndex(t.columns, name))))
    else Err(KeyError(VStr(name)))
  }

  function PresentRows(rows: seq<Row>, i: nat): (r: seq<Row>)
    ensures |r| <= |rows|
    ensures forall x :: x in r ==> x in rows && i < |x| && !IsNa(x[i])
    ensures forall x :: x in rows && i < |x| && !IsNa(x[i]) ==> x in r
  {
    if rows == [] then []
    else
      var rest := PresentRows(rows[1..], i);
      assert forall x :: x in rows ==> x == rows[0] || x in rows[1..];
      if i < |rows[0]| && !IsNa(rows[0][i]) then [rows[0]] + rest else rest
  }

  /** The rows of 'PresentRows' appear in the order of the input. */
  lemma {:induction false} PresentRowsAppend(a: seq<Row>, b: seq<Row>, i: nat)
    ensures PresentRows(a + b, i) == PresentRows(a, i) + PresentRows(b, i)
  {
    if a != [] {
      assert (a + b)[1..] == a[1..] + b;
      PresentRowsAppend(a[1..], b, i);
    } else {
      assert a + b == b;
    }
  }

  // ----- pd.merge(left, right, on=keys, how="left") -----

  /** The labels of `columns` that are not join keys, in order. */
  function NonKey(columns: seq<string>, keys: seq<string>): (r: seq<string>)
    ensures forall c :: c in r <==> c in columns && c !in keys
    ensures |r| <= |columns|
    ensures Distinct(columns) ==> Distinct(r)
  {
    if columns == [] then []
    else
      var rest := NonKey(columns[1..], keys);
      assert forall c :: c in columns <==> c == columns[0] || c in columns[1..];
      if columns[0] in keys then rest else [columns[0]] + rest
  }

  /** pandas' label for a left column: `_x` when the right frame has a non-key column of the same name. */
  function LeftLabel(c: string, right: seq<string>, keys: seq<string>): string {
    if c !in keys && c in right then c + "_x" else c
  }

  /** pandas' label for a right non-key column: `_y` when the left frame has one of the same name. */
  function RightLabel(c: string, left: seq<string>): string {
    if c in left then c + "_y" else c
  }

  /** The labels the left columns get in the merged frame, in order. */
  function LeftLabels(left: seq<string>, right: seq<string>, keys: seq<string>): (r: seq<string>)
    ensures |r| == |left|
  {
    seq(|left|, i requires 0 <= i < |left| => LeftLabel(left[i], right, keys))
  }

  /** The labels the right non-key columns get in the merged frame, in order. */
  function RightLabels(left: seq<string>, right: seq<string>, keys: seq<string>): (r: seq<string>)
    ensures |r| == |NonKey(right, keys)|
  {
    var extra := NonKey(right, keys);
    seq(|extra|, j requires 0 <= j < |extra| => RightLabel(extra[j], left))
  }

  /**
   * The columns of the merged frame: all left columns, then the right non-key columns.
   * The two halves are suffixed separately, so a label can occur in both.
   */
  function JoinedColumns(left: seq<string>, right: seq<string>, keys: seq<string>): (r: seq<string>)
    ensures |r| == |left| + |NonKey(right, keys)|
  {
    LeftLabels(left, right, keys) + RightLabels(left, right, keys)
  }

  /** The key cells of a row of `t`. */
  function KeyOf(t: Table, row: Row, keys: seq<string>): seq<Value>
    requires |row| == |t.columns|
    requires forall c :: c in keys ==> c in t.columns
  {
    seq(|keys|, i requires 0 <= i < |keys| => row[ColumnIndex(t.columns, keys[i])])
  }

  predicate JoinReady(left: Table, right: Table, keys: seq<string>) {
    && WellFormed(left) && WellFormed(right)
    && (forall c :: c in keys ==> c in left.columns && c in right.columns)
  }

  /** The right rows whose key cells equal those of the left row, in right-frame order. */
  function Matches(left: Table, right: Table, keys: seq<string>, lrow: Row, rrows: seq<Row>): (r: seq<Row>)
    requires JoinReady(left, right, keys) && |lrow| == |left.columns|
    requires forall k :: 0 <= k < |rrows| ==> |rrows[k]| == |right.columns|
    ensures |r| <= |rrows|
    ensures forall x :: x in r ==> x in rrows
    ensures forall k :: 0 <= k < |r| ==> |r[k]| == |right.columns|
                                          && KeyOf(right, r[k], keys) == KeyOf(left, lrow, keys)
    ensures forall k :: 0 <= k < |rrows| && KeyOf(right, rrows[k], keys) == KeyOf(left, lrow, keys) ==> rrows[k] in r
  {
    if rrows == [] then []
    else
      var rest := Matches(left, right, keys, lrow, rrows[1..]);
      if KeyOf(right, rrows[0], keys) == KeyOf(left, lrow, keys) then [rrows[0]] + rest else rest
  }

  /** A single right row matches exactly when its key cells equal the left row's. */
  lemma MatchesSingle(left: Table, right: Table, keys: seq<string>, lrow: Row, x: Row)
    requires JoinReady(left, right, keys) && |lrow| == |left.columns| && |x| == |right.columns|
    ensures Matches(left, right, keys, lrow, [x]) == if KeyOf(right, x, keys) == KeyOf(left, lrow, keys) then [x] else []
  {
    assert [x][1..] == [];
  }

  /** Matching is taken row by row: the matches of two blocks of right rows are concatenated in order. */
  lemma {:induction false} MatchesAppend(left: Table, right: Table, keys: seq<string>, lrow: Row, a: seq<Row>, b: seq<Row>)
    requires JoinReady(left, right, keys) && |lrow| == |left.columns|
    requires forall k :: 0 <= k < |a| ==> |a[k]| == |right.columns|
    requires forall k :: 0 <= k < |b| ==> |b[k]| == |right.columns|
    ensures Matches(left, right, keys, lrow, a + b)
            == Matches(left, right, keys, lrow, a) + Matches(left, right, keys, lrow, b)
    decreases |a|
  {
    if a == [] {
      assert a + b == b;
    } else {
      assert (a + b)[0] == a[0] && (a + b)[1..] == a[1..] + b;
      MatchesAppend(left, right, keys, lrow, a[1..], b);
    }
  }

  /** The values of a right row under its non-key columns. */
  function RightPart(right: Table, keys: seq<string>, rrow: Row): (r: seq<Value>)
    requires WellFormed(right) && |rrow| == |right.columns|
    ensures |r| == |NonKey(right.columns, keys)|
  {
    var extra := NonKey(right.columns, keys);
    seq(|extra|, j requires 0 <= j < |extra| => rrow[ColumnIndex(right.columns, extra[j])])
  }

  function Fill(n: nat, v: Value): (r: seq<Value>)
    ensures |r| == n && forall j :: 0 <= j < n ==> r[j] == v
  {
    seq(n, j => v)
  }

  /**
   * The merged rows one left row gives: one per matching right row, in right order,
   * or, with no match, the left row once with NaN in every right column.
   */
  function Block(left: Table, right: Table, keys: seq<string>, lrow: Row): (r: seq<Row>)
    requires JoinReady(left, right, keys) && |lrow| == |left.columns|
    ensures |r| >= 1
    ensures |r| == if Matches(left, right, keys, lrow, right.rows) == [] then 1
                   else |Matches(left, right, keys, lrow, right.rows)|
    ensures forall j :: 0 <= j < |r| ==> |r[j]| == |lrow| + |NonKey(right.columns, keys)|
    ensures forall j :: 0 <= j < |r| ==> r[j][..|lrow|] == lrow
  {
    var ms := Matches(left, right, keys, lrow, right.rows);
    var width := |NonKey(right.columns, keys)|;
    if ms == [] then
      assert (lrow + Fill(width, NaN))[..|lrow|] == lrow;
      [lrow + Fill(width, NaN)]
    else
      var r := seq(|ms|, j requires 0 <= j < |ms| => lrow + RightPart(right, keys, ms[j]));
      assert forall j :: 0 <= j < |r| ==> r[j][..|lrow|] == lrow by {
        forall j | 0 <= j < |r| ensures r[j][..|lrow|] == lrow {
          assert r[j] == lrow + RightPart(right, keys, ms[j]);
        }
      }
      r
  }

  /**
   * A left row with `k >= 1` matching right rows appears `k` times, each time followed by
   * the non-key cells of one match, in right order; without a match it appears once,
   * followed by NaN in every right column.
   */
  lemma BlockContents(left: Table, right: Table, keys: seq<string>, lrow: Row)
    requires JoinReady(left, right, keys) && |lrow| == |left.columns|
    ensures var ms := Matches(left, right, keys, lrow, right.rows);
            var b := Block(left, right, keys, lrow);
            && (ms == [] ==> b == [lrow + Fill(|NonKey(right.columns, keys)|, NaN)])
            && (ms != [] ==> |b| == |ms| && forall j :: 0 <= j < |ms| ==> b[j] == lrow + RightPart(right, keys, ms[j]))
  {
  }

  /** The merged rows of a run of left rows, block after block. */
  function JoinRows(left: Table, right: Table, keys: seq<string>, lrows: seq<Row>): (r: seq<Row>)
    requires JoinReady(left, right, keys)
    requires forall k :: 0 <= k < |lrows| ==> |lrows[k]| == |left.columns|
    ensures |r| >= |lrows|
    ensures forall k :: 0 <= k < |r| ==> |r[k]| == |left.columns| + |NonKey(right.columns, keys)|
  {
    if lrows == [] then []
    else Block(left, right, keys, lrows[0]) + JoinRows(left, right, keys, lrows[1..])
  }

  function FirstDuplicate(names: seq<string>): (d: string)
    requires !Distinct(names)
  {
    if names[0] in names[1..] then names[0]
    else
      assert !Distinct(names[1..]) by {
        var i, j :| 0 <= i < j < |names| && names[i] == names[j];
        assert i > 0;
        assert names[1..][i - 1] == names[1..][j - 1];
      }
      FirstDuplicate(names[1..])
  }

  /**
   * `pd.merge(left, right, on=keys, how="left")`. pandas refuses suffixes that make two
   * left labels equal, or two right labels equal; it does not compare a left label with
   * a right one, so the merged frame can carry a label twice.
   */
  function LeftJoin(left: Table, right: Table, keys: seq<string>): (r: Result<Table, Exc>)
    requires JoinReady(left, right, keys)
    ensures r.Ok? <==> Distinct(LeftLabels(left.columns, right.columns, keys))
                       && Distinct(RightLabels(left.columns, right.columns, keys))
    ensures r.Ok? ==> r.value.columns == JoinedColumns(left.columns, right.columns, keys)
                      && r.value.rows == JoinRows(left, right, keys, left.rows)
  {
    var lnames := LeftLabels(left.columns, right.columns, keys);
    var rnames := RightLabels(left.columns, right.columns, keys);
    if !Distinct(lnames) then
      Err(MergeError("Passing 'suffixes' which cause duplicate columns {"
                     + StrRepr(FirstDuplicate(lnames)) + "} is not allowed."))
    else if !Distinct(rnames) then
      Err(MergeError("Passing 'suffixes' which cause duplicate columns {"
                     + StrRepr(FirstDuplicate(rnames)) + "} is not allowed."))
    else
      Ok(Table(JoinedColumns(left.columns, right.columns, keys), JoinRows(left, right, keys, left.rows)))
  }

  /** When all merged labels differ, pandas accepts the suffixes and the merged frame is a well-formed table. */
  lemma LeftJoinWellFormed(left: Table, right: Table, keys: seq<string>)
    requires JoinReady(left, right, keys)
    requires Distinct(JoinedColumns(left.columns, right.columns, keys))
    ensures LeftJoin(left, right, keys).Ok?
    ensures WellFormed(LeftJoin(left, right, keys).value)
  {
    var lnames := LeftLabels(left.columns, right.columns, keys);
    var rnames := RightLabels(left.columns, right.columns, keys);
    assert JoinedColumns(left.columns, right.columns, keys) == lnames + rnames;
    assert Distinct(lnames) by {
      forall i, j | 0 <= i < j < |lnames| ensures lnames[i] != lnames[j] {
        assert (lnames + rnames)[i] == lnames[i] && (lnames + rnames)[j] == lnames[j];
      }
    }
    assert Distinct(rnames) by {
      forall i, j | 0 <= i < j < |rnames| ensures rnames[i] != rnames[j] {
        assert (lnames + rnames)[|lnames| + i] == rnames[i] && (lnames + rnames)[|lnames| + j] == rnames[j];
      }
    }
  }

  /**
   * A left column `c` that the right frame shares, next to a left column `c_y` that the
   * right frame lacks: the merge succeeds, and the right `c` and the left `c_y` carry
   * the same label `c_y`.
   */
  lemma CrossSideClash(left: Table, right: Table, keys: seq<string>, c: string)
    requires JoinReady(left, right, keys)
    requires Distinct(LeftLabels(left.columns, right.columns, keys))
    requires Distinct(RightLabels(left.columns, right.columns, keys))
    requires c !in keys && c in left.columns && c in right.columns
    requires c + "_y" in left.columns && c + "_y" !in right.columns
    ensures LeftJoin(left, right, keys).Ok?
    ensures !Distinct(LeftJoin(left, right, keys).value.columns)
  {
    var cols := JoinedColumns(left.columns, right.columns, keys);
    var extra := NonKey(right.columns, keys);
    var i := ColumnIndex(left.columns, c + "_y");
    var j := ColumnIndex(extra, c);
    assert LeftLabels(left.columns, right.columns, keys)[i] == c + "_y";
    assert RightLabels(left.columns, right.columns, keys)[j] == c + "_y";
    assert cols[i] == cols[|left.columns| + j];
  }

  /** Merged rows come block by block in left-frame order: the join distributes over concatenation. */
  lemma {:induction false} JoinRowsAppend(left: Table, right: Table, keys: seq<string>, a: seq<Row>, b: seq<Row>)
    requires JoinReady(left, right, keys)
    requires forall k :: 0 <= k < |a| ==> |a[k]| == |left.columns|
    requires forall k :: 0 <= k < |b| ==> |b[k]| == |left.columns|
    ensures JoinRows(left, right, keys, a + b) == JoinRows(left, right, keys, a) + JoinRows(left, right, keys, b)
  {
    if a == [] {
      assert a + b == b;
    } else {
      assert (a + b)[1..] == a[1..] + b;
      JoinRowsAppend(left, right, keys, a[1..], b);
    }
  }

  /** The number of merged rows: each left row counts its matches, and at least once. */
  function JoinSize(left: Table, right: Table, keys: seq<string>, lrows: seq<Row>): nat
    requires JoinReady(left, right, keys)
    requires forall k :: 0 <= k < |lrows| ==> |lrows[k]| == |left.columns|
  {
    if lrows == [] then 0
    else
      var m := |Matches(left, right, keys, lrows[0], right.rows)|;
      (if m == 0 then 1 else m) + JoinSize(left, right, keys, lrows[1..])
  }

  lemma {:induction false} JoinRowsSize(left: Table, right: Table, keys: seq<string>, lrows: seq<Row>)
    requires JoinReady(left, right, keys)
    requires forall k :: 0 <= k < |lrows| ==> |lrows[k]| == |left.columns|
    ensures |JoinRows(left, right, keys, lrows)| == JoinSize(left, right, keys, lrows)
  {
    if lrows != [] {
      JoinRowsSize(left, right, keys, lrows[1..]);
    }
  }

  /**
   * When no left row has more than one match (the right frame holds each key at most
   * once), the merged frame has exactly one row per left row, in left order, and that
   * row starts with the left row.
   */
  lemma {:induction false} JoinRowsOneToOne(left: Table, right: Table, keys: seq<string>, lrows: seq<Row>)
    requires JoinReady(left, right, keys)
    requires forall k :: 0 <= k < |lrows| ==> |lrows[k]| == |left.columns|
    requires forall k :: 0 <= k < |lrows| ==> |Matches(left, right, keys, lrows[k], right.rows)| <= 1
    ensures |JoinRows(left, right, keys, lrows)| == |lrows|
    ensures forall k :: 0 <= k < |lrows| ==>
              JoinRows(left, right, keys, lrows)[k][..|left.columns|] == lrows[k]
  {
    if lrows != [] {
      var tail := lrows[1..];
      assert forall k :: 0 <= k < |tail| ==> tail[k] == lrows[k + 1];
      JoinRowsOneToOne(left, right, keys, tail);
      var b := Block(left, right, keys, lrows[0]);
      var rest := JoinRows(left, right, keys, tail);
      var all := JoinRows(left, right, keys, lrows);
      assert |b| == 1;
      assert all == b + rest;
      assert all[0] == b[0];
      assert forall k :: 1 <= k < |lrows| ==> all[k] == rest[k - 1];
    }
  }

  /** A frame object whose columns code assigns in place. */
  class Frame {
    var columns: seq<string>
    var rows: seq<Row>

    function Snapshot(): Table
      reads this
    {
      Table(columns, rows)
    }

    ghost predicate Valid()
      reads this
    {
      WellFormed(Snapshot())
    }

    constructor (t: Table)
      requires WellFormed(t)
      ensures Valid() && Snapshot() == t
    {
      columns := t.columns;
      rows := t.rows;
    }

    /** `self[name] = values`. */
    method Assign(name: string, values: seq<Value>)
      requires Valid() && |values| == |rows|
      modifies this
      ensures Valid() && Snapshot() == WithColumn(old(Snapshot()), name, values)
    {
      var t := WithColumn(Snapshot(), name, values);
      columns := t.columns;
      rows := t.rows;
    }

    /** `self[name] = self[name].astype(str)`: `KeyError` and no change when the column is absent. */
    method AsTypeStr(name: string) returns (err: Option<Exc>)
      requires Valid()
      modifies this
      ensures Valid()
      ensures err.Some? <==> name !in old(columns)
      ensures err.Some? ==> err.value == KeyError(VStr(name)) && Snapshot() == old(Snapshot())
      ensures err.None? ==> Snapshot() == StrColumn(old(Snapshot()), name)
    {
      var col := Column(Snapshot(), name);
      if col.Err? {
        return Some(col.error);
      }
      var strs := seq(|col.value|, k requires 0 <= k < |col.value| => AsStr(col.value[k]));
      Assign(name, strs);
      err := None;
    }
  }
}
