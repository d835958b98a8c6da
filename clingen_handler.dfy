/**
 * The ClinGen gene-disease validity table (clingen_handler.py): shaping the raw CSV
 * grid into a three-column table, and looking up the classification of a gene.
 * Reading the file is input: the loader receives the grid `read_csv(path,
 * header=None)` would give, or `None` when reading fails.
 */
module ClingenHandler {
  import opened Wrappers
  import opened PyValues

  /** One raw CSV row; an empty field (NaN) is `None`. */
  type RawRow = seq<Option<string>>

  /** `read_csv` always gives a rectangular grid. */
  predicate Rectangular(raw: seq<RawRow>) {
    forall k :: 0 <= k < |raw| ==> |raw[k]| == |raw[0]|
  }

  /** One row of the shaped table: GENE SYMBOL, DISEASE LABEL, CLASSIFICATION. */
  datatype ValidityRow = ValidityRow(gene: string, disease: string, classification: string)

  /** The shaped table, or the column-less `pd.DataFrame()` returned on any failure. */
  datatype ValidityTable = EmptyFrame | Validity(rows: seq<ValidityRow>)

  const GeneLabel: string := "GENE SYMBOL"
  const DiseaseLabel: string := "DISEASE LABEL"
  const ClassificationLabel: string := "CLASSIFICATION"

  /** The raw row that holds the real column names; the four rows above it are metadata. */
  const HeaderRow: nat := 4
  const FirstDataRow: nat := 5

  /** The first column labelled `name`, or `|header|`. */
  function LabelIndex(header: RawRow, name: string): (i: nat)
    ensures i <= |header|
    ensures i < |header| <==> Some(name) in header
    ensures i < |header| ==> header[i] == Some(name)
    ensures forall j :: 0 <= j < i ==> header[j] != Some(name)
  {
    if |header| == 0 then 0
    else if header[0] == Some(name) then 0
    else 1 + LabelIndex(header[1..], name)
  }

  /** Where the three kept columns stand in the raw grid. */
  datatype Positions = Positions(gene: nat, disease: nat, classification: nat)

  predicate Fits(p: Positions, width: nat) {
    p.gene < width && p.disease < width && p.classification < width
  }

  /** The column selection `df[[GENE SYMBOL, DISEASE LABEL, CLASSIFICATION]]`: `None` is its `KeyError`. */
  function Locate(header: RawRow): (r: Option<Positions>)
    ensures r.Some? <==> Some(GeneLabel) in header && Some(DiseaseLabel) in header
                         && Some(ClassificationLabel) in header
    ensures r.Some? ==> Fits(r.value, |header|)
                        && header[r.value.gene] == Some(GeneLabel)
                        && header[r.value.disease] == Some(DiseaseLabel)
                        && header[r.value.classification] == Some(ClassificationLabel)
  {
    var g := LabelIndex(header, GeneLabel);
    var d := LabelIndex(header, DiseaseLabel);
    var c := LabelIndex(header, ClassificationLabel);
    if g < |header| && d < |header| && c < |header| then Some(Positions(g, d, c)) else None
  }

  /** A raw row cut down to the three columns; `None` when one of them is empty. */
  function Project(row: RawRow, p: Positions): (r: Option<ValidityRow>)
    requires Fits(p, |row|)
  {
    if row[p.gene].Some? && row[p.disease].Some? && row[p.classification].Some? then
      Some(ValidityRow(row[p.gene].value, row[p.disease].value, row[p.classification].value))
    else None
  }

  predicate AllFit(rows: seq<RawRow>, p: Positions) {
    forall k :: 0 <= k < |rows| ==> Fits(p, |rows[k]|)
  }

  /** `dropna()` after the selection: the complete rows, projected, in their order. */
  function DropIncomplete(rows: seq<RawRow>, p: Positions): (r: seq<ValidityRow>)
    requires AllFit(rows, p)
    ensures |r| <= |rows|
  {
    if rows == [] then []
    else
      match Project(rows[0], p)
      case None => DropIncomplete(rows[1..], p)
      case Some(v) => [v] + DropIncomplete(rows[1..], p)
  }

  /** The value `load_clingen_validity` returns for a raw grid (or a failed read). */
  function ClingenValidity(raw: Option<seq<RawRow>>): ValidityTable
    requires raw.Some? ==> Rectangular(raw.value)
  {
    if raw.None? || |raw.value| <= HeaderRow then EmptyFrame
    else
      match Locate(raw.value[HeaderRow])
      case None => EmptyFrame
      case Some(p) => Validity(DropIncomplete(raw.value[FirstDataRow..], p))
  }

  /**
   * `load_clingen_validity` (clingen_handler.py:3-12): the frame is narrowed step by
   * step; a failed read, a grid too short to hold the header row and a header without
   * one of the three names all give the empty frame.
   */
  method LoadClingenValidity(raw: Option<seq<RawRow>>) returns (df: ValidityTable)
    requires raw.Some? ==> Rectangular(raw.value)
    ensures df == ClingenValidity(raw)
    ensures df.EmptyFrame? <==> raw.None? || |raw.value| < FirstDataRow || Locate(raw.value[HeaderRow]).None?
  {
    if raw.None? {
      // read_csv raised
      return EmptyFrame;
    }
    var dfRaw := raw.value;
    if |dfRaw| <= HeaderRow {
      // df_raw.iloc[4] raises IndexError
      return EmptyFrame;
    }
    var body := dfRaw[FirstDataRow..];
    var columns := dfRaw[HeaderRow];
    var selected := Locate(columns);
    if selected.None? {
      // the column selection raises KeyError
      return EmptyFrame;
    }
    assert AllFit(body, selected.value) by {
      forall k | 0 <= k < |body| ensures Fits(selected.value, |body[k]|) {
        assert body[k] == dfRaw[FirstDataRow + k];
      }
    }
    df := Validity(DropIncomplete(body, selected.value));
  }

  /** A shaped row is exactly the projection of some complete data row. */
  lemma {:induction false} DropIncompleteMembers(rows: seq<RawRow>, p: Positions, v: ValidityRow)
    requires AllFit(rows, p)
    ensures v in DropIncomplete(rows, p) <==> exists k :: 0 <= k < |rows| && Project(rows[k], p) == Some(v)
  {
    if rows != [] {
      DropIncompleteMembers(rows[1..], p, v);
      if exists k :: 0 <= k < |rows| && Project(rows[k], p) == Some(v) {
        var k :| 0 <= k < |rows| && Project(rows[k], p) == Some(v);
        if k > 0 {
          assert rows[1..][k - 1] == rows[k];
        }
      }
      assert forall k :: 0 <= k < |rows| - 1 ==> rows[1..][k] == rows[k + 1];
    }
  }

  /** Shaping keeps the data rows' order: it works piecewise over a split of the rows. */
  lemma {:induction false} DropIncompleteAppend(a: seq<RawRow>, b: seq<RawRow>, p: Positions)
    requires AllFit(a, p) && AllFit(b, p)
    ensures AllFit(a + b, p)
    ensures DropIncomplete(a + b, p) == DropIncomplete(a, p) + DropIncomplete(b, p)
  {
    assert AllFit(a + b, p) by {
      forall k | 0 <= k < |a + b| ensures Fits(p, |(a + b)[k]|) {
        if k >= |a| { assert (a + b)[k] == b[k - |a|]; }
      }
    }
    if a != [] {
      assert (a + b)[1..] == a[1..] + b;
      assert (a + b)[0] == a[0];
      DropIncompleteAppend(a[1..], b, p);
    } else {
      assert a + b == b;
    }
  }

  /** When no data row has an empty field among the three, none is dropped. */
  lemma {:induction false} DropIncompleteKeepsComplete(rows: seq<RawRow>, p: Positions)
    requires AllFit(rows, p)
    requires forall k :: 0 <= k < |rows| ==> Project(rows[k], p).Some?
    ensures |DropIncomplete(rows, p)| == |rows|
    ensures forall k :: 0 <= k < |rows| ==> DropIncomplete(rows, p)[k] == Project(rows[k], p).value
  {
    if rows != [] {
      assert forall k :: 0 <= k < |rows| - 1 ==> rows[1..][k] == rows[k + 1];
      DropIncompleteKeepsComplete(rows[1..], p);
    }
  }

  /** The first row for `gene`, or `|rows|`. */
  function FirstForGene(rows: seq<ValidityRow>, gene: Value): (i: nat)
    ensures i <= |rows|
    ensures i < |rows| ==> gene == VStr(rows[i].gene)
    ensures forall j :: 0 <= j < i ==> gene != VStr(rows[j].gene)
  {
    if rows == [] then 0
    else if gene == VStr(rows[0].gene) then 0
    else 1 + FirstForGene(rows[1..], gene)
  }

  /** Row `i` is the first whose GENE SYMBOL equals `gene`. */
  ghost predicate FirstMatch(rows: seq<ValidityRow>, gene: Value, i: nat) {
    i < |rows| && gene == VStr(rows[i].gene) && forall j :: 0 <= j < i ==> gene != VStr(rows[j].gene)
  }

  /**
   * `get_clingen_classification`: the CLASSIFICATION of the first row whose GENE SYMBOL
   * equals the query exactly, `"Yok"` when there is none; on the empty fallback frame
   * the column access raises `KeyError`.
   */
  function Classification(gene: Value, t: ValidityTable): (r: Result<string, Exc>)
    ensures r.Err? <==> t.EmptyFrame?
    ensures r.Err? ==> r.error == KeyError(VStr(GeneLabel))
    ensures t.Validity? && (forall i :: 0 <= i < |t.rows| ==> gene != VStr(t.rows[i].gene)) ==> r == Ok("Yok")
    ensures forall i: nat :: t.Validity? && FirstMatch(t.rows, gene, i) ==> r == Ok(t.rows[i].classification)
  {
    match t
    case EmptyFrame => Err(KeyError(VStr(GeneLabel)))
    case Validity(rows) =>
      var i := FirstForGene(rows, gene);
      assert forall j: nat :: FirstMatch(rows, gene, j) ==> j == i;
      if i < |rows| then Ok(rows[i].classification) else Ok("Yok")
  }

  /** A gene that is not text (a missing gene, NaN) never matches. */
  lemma NonTextGeneIsYok(gene: Value, rows: seq<ValidityRow>)
    requires !gene.VStr?
    ensures Classification(gene, Validity(rows)) == Ok("Yok")
  {
  }

  /** Over the data rows alone: the first complete row for a gene is the one the lookup finds. */
  lemma {:induction false} FirstCompleteFound(body: seq<RawRow>, p: Positions, k: nat)
    requires AllFit(body, p) && k < |body| && Project(body[k], p).Some?
    requires forall j :: 0 <= j < k && Project(body[j], p).Some? ==>
               Project(body[j], p).value.gene != Project(body[k], p).value.gene
    ensures Classification(VStr(Project(body[k], p).value.gene), Validity(DropIncomplete(body, p)))
            == Ok(Project(body[k], p).value.classification)
  {
    var v := Project(body[k], p).value;
    var a := body[..k];
    var b := body[k..];
    assert body == a + b;
    assert AllFit(a, p) && AllFit(b, p) by {
      assert forall j :: 0 <= j < |a| ==> a[j] == body[j];
      assert forall j :: 0 <= j < |b| ==> b[j] == body[j + |a|];
    }
    DropIncompleteAppend(a, b, p);
    var before := DropIncomplete(a, p);
    assert b[0] == body[k];
    assert DropIncomplete(b, p) == [v] + DropIncomplete(b[1..], p);
    var rows := DropIncomplete(body, p);
    assert rows == before + [v] + DropIncomplete(b[1..], p);
    assert rows[|before|] == v;
    forall j | 0 <= j < |before| ensures VStr(v.gene) != VStr(rows[j].gene) {
      assert rows[j] == before[j];
      assert before[j] in before;
      DropIncompleteMembers(a, p, before[j]);
      var m :| 0 <= m < |a| && Project(a[m], p) == Some(before[j]);
      assert a[m] == body[m];
    }
    assert FirstMatch(rows, VStr(v.gene), |before|);
  }

  /**
   * Loading then looking up: when data row `k` is complete and is the first complete data row
   * for its gene, the lookup of that gene gives that row's classification.
   */
  lemma LookupAfterLoad(raw: seq<RawRow>, k: nat)
    requires Rectangular(raw) && FirstDataRow <= k < |raw|
    requires Locate(raw[HeaderRow]).Some?
    requires Project(raw[k], Locate(raw[HeaderRow]).value).Some?
    requires forall j :: FirstDataRow <= j < k && Project(raw[j], Locate(raw[HeaderRow]).value).Some? ==>
               Project(raw[j], Locate(raw[HeaderRow]).value).value.gene != Project(raw[k], Locate(raw[HeaderRow]).value).value.gene
    ensures Classification(VStr(Project(raw[k], Locate(raw[HeaderRow]).value).value.gene), ClingenValidity(Some(raw)))
            == Ok(Project(raw[k], Locate(raw[HeaderRow]).value).value.classification)
  {
    var p := Locate(raw[HeaderRow]).value;
    var body := raw[FirstDataRow..];
    assert forall j :: 0 <= j < |body| ==> body[j] == raw[FirstDataRow + j];
    assert ClingenValidity(Some(raw)) == Validity(DropIncomplete(body, p));
    FirstCompleteFound(body, p, k - FirstDataRow);
  }
}
