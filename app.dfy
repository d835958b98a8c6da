/**
 * The interpretation pipeline of app.py: the VCF line parser, the required-column check,
 * the key normalisation and left join against the ClinVar reference with the ClinGen
 * class attached, and the per-variant result loop. The Streamlit UI, file decoding,
 * caching and pacing are not modelled; the network services and the language model
 * are inputs (`Services`).
 */
module App {
  import opened Wrappers
  import opened PyText
  import opened PyValues
  import opened Http
  import opened Tables
  import opened ClingenHandler
  import opened PubmedHandler
  import GnomadHandler

  /** The four variant key columns, in the order the code handles them. */
  const Keys: seq<string> := ["CHROM", "POS", "REF", "ALT"]
  const IndexOutOfRange: string := "list index out of range"

  // ----- parse_vcf (app.py:77-91) -----

  /** The tab-separated fields of a stripped line. */
  function Fields(line: string): (p: seq<string>)
    ensures |p| >= 1
  {
    Split(Strip(line), '\t')
  }

  /**
   * The row of one data line, `{"CHROM": p[0], "POS": int(p[1]), "REF": p[3], "ALT": p[4]}`,
   * with Python's left-to-right evaluation deciding which failure is raised.
   */
  function LineRow(line: string): (r: Result<Row, Exc>)
    ensures var p := Fields(line);
            r.Ok? <==> |p| >= 5 && ParseInt(p[1]).Some?
    ensures var p := Fields(line);
            r.Ok? ==> r.value == [VStr(p[0]), VInt(ParseInt(p[1]).value), VStr(p[3]), VStr(p[4])]
    ensures var p := Fields(line);
            r.Err? && |p| >= 2 && ParseInt(p[1]).Some? ==> r.error == IndexError(IndexOutOfRange)
    ensures |Fields(line)| < 2 ==> r == Err(IndexError(IndexOutOfRange))
    ensures var p := Fields(line);
            |p| >= 2 && ParseInt(p[1]).None? ==> ToInt(VStr(p[1])).Err? && r == Err(ToInt(VStr(p[1])).error)
  {
    var p := Fields(line);
    if |p| < 2 then Err(IndexError(IndexOutOfRange))
    else
      match ToInt(VStr(p[1]))
      case Err(e) => Err(e)
      case Ok(pos) =>
        if |p| < 5 then Err(IndexError(IndexOutOfRange))
        else Ok([VStr(p[0]), VInt(pos), VStr(p[3]), VStr(p[4])])
  }

  predicate IsComment(line: string) {
    StartsWith(line, "#")
  }

  /** The rows of the lines seen so far; the first failing data line stops the parse. */
  function VcfRows(lines: seq<string>): (r: Result<seq<Row>, Exc>)
    ensures r.Ok? ==> forall k :: 0 <= k < |r.value| ==> |r.value[k]| == |Keys|
    decreases |lines|
  {
    if lines == [] then Ok([])
    else
      var line := lines[|lines| - 1];
      match VcfRows(lines[..|lines| - 1])
      case Err(e) => Err(e)
      case Ok(rows) =>
        if IsComment(line) then Ok(rows)
        else
          match LineRow(line)
          case Err(e) => Err(e)
          case Ok(row) => Ok(rows + [row])
  }

  /** `pd.DataFrame(rows)`: the four key columns, or no columns at all when there is no row. */
  function VcfFrame(rows: seq<Row>): (t: Table)
    requires forall k :: 0 <= k < |rows| ==> |rows[k]| == |Keys|
    ensures WellFormed(t) && t.rows == rows
  {
    if rows == [] then Table([], []) else Table(Keys, rows)
  }

  /** `parse_vcf` on the decoded lines of the upload: the loop that appends one row per data line. */
  method ParseVcf(lines: seq<string>) returns (r: Result<Table, Exc>)
    ensures r.Ok? <==> VcfRows(lines).Ok?
    ensures r.Ok? ==> r.value == VcfFrame(VcfRows(lines).value)
    ensures r.Err? ==> r.error == VcfRows(lines).error
  {
    var rows: seq<Row> := [];
    var i := 0;
    while i < |lines|
      invariant 0 <= i <= |lines|
      invariant VcfRows(lines[..i]) == Ok(rows)
    {
      VcfRowsStep(lines, i);
      var line := lines[i];
      if !IsComment(line) {
        var row := LineRow(line);
        if row.Err? {
          VcfRowsStayFailed(lines, i + 1);
          return Err(row.error);
        }
        rows := rows + [row.value];
      }
      i := i + 1;
    }
    assert lines[..i] == lines;
    return Ok(VcfFrame(rows));
  }

  lemma VcfRowsStep(lines: seq<string>, i: nat)
    requires i < |lines|
    ensures VcfRows(lines[..i + 1]) == match VcfRows(lines[..i])
                                       case Err(e) => Err(e)
                                       case Ok(rows) =>
                                         if IsComment(lines[i]) then Ok(rows)
                                         else (match LineRow(lines[i]) case Err(e) => Err(e) case Ok(row) => Ok(rows + [row]))
  {
    assert lines[..i + 1][..i] == lines[..i];
  }

  lemma {:induction false} VcfRowsStayFailed(lines: seq<string>, i: nat)
    requires i <= |lines| && VcfRows(lines[..i]).Err?
    ensures VcfRows(lines) == VcfRows(lines[..i])
    decreases |lines| - i
  {
    if i < |lines| {
      assert lines[..i + 1][..i] == lines[..i];
      VcfRowsStayFailed(lines, i + 1);
    } else {
      assert lines[..i] == lines;
    }
  }

  /** The lines that are not `#` comments, in order. */
  function DataLines(lines: seq<string>): (d: seq<string>)
    ensures |d| <= |lines|
    ensures forall k :: 0 <= k < |d| ==> !IsComment(d[k]) && d[k] in lines
    ensures forall k :: 0 <= k < |lines| && !IsComment(lines[k]) ==> lines[k] in d
    decreases |lines|
  {
    if lines == [] then []
    else
      var rest := DataLines(lines[..|lines| - 1]);
      assert forall k :: 0 <= k < |lines| - 1 ==> lines[..|lines| - 1][k] == lines[k];
      if IsComment(lines[|lines| - 1]) then rest else rest + [lines[|lines| - 1]]
  }

  /** A single line is kept exactly when it is not a comment. */
  lemma DataLinesSingle(line: string)
    ensures DataLines([line]) == if IsComment(line) then [] else [line]
  {
    assert [line][..0] == [];
  }

  /** Filtering is taken line by line: the data lines of two blocks are concatenated in order. */
  lemma {:induction false} DataLinesAppend(a: seq<string>, b: seq<string>)
    ensures DataLines(a + b) == DataLines(a) + DataLines(b)
    decreases |b|
  {
    if b == [] {
      assert a + b == a;
    } else {
      var init := b[..|b| - 1];
      assert (a + b)[..|a + b| - 1] == a + init && (a + b)[|a + b| - 1] == b[|b| - 1];
      DataLinesAppend(a, init);
    }
  }

  /** The parse of each data line, in order. */
  function PerLine(d: seq<string>): (rs: seq<Result<Row, Exc>>)
    ensures |rs| == |d| && forall k :: 0 <= k < |d| ==> rs[k] == LineRow(d[k])
  {
    seq(|d|, k requires 0 <= k < |d| => LineRow(d[k]))
  }

  /** The loop over all lines is the loop over the data lines alone. */
  lemma {:induction false} VcfRowsSkipComments(lines: seq<string>)
    ensures VcfRows(lines) == Gather(PerLine(DataLines(lines)))
    decreases |lines|
  {
    if lines != [] {
      var init := lines[..|lines| - 1];
      var line := lines[|lines| - 1];
      VcfRowsSkipComments(init);
      var d0 := DataLines(init);
      if !IsComment(line) {
        assert PerLine(d0 + [line]) == PerLine(d0) + [LineRow(line)];
        GatherSnoc(PerLine(d0), LineRow(line));
      }
    }
  }

  /**
   * Comments are skipped and every other line yields exactly one row, in input order;
   * when a data line does not parse, the parse fails with the error of the first such line.
   */
  lemma VcfRowsOfDataLines(lines: seq<string>)
    ensures var d := DataLines(lines);
            var r := VcfRows(lines);
            && (r.Ok? <==> forall k :: 0 <= k < |d| ==> LineRow(d[k]).Ok?)
            && (r.Ok? ==> |r.value| == |d| && forall k :: 0 <= k < |d| ==> r.value[k] == LineRow(d[k]).value)
            && (r.Err? ==> exists k :: 0 <= k < |d| && LineRow(d[k]) == Err(r.error)
                                       && forall j :: 0 <= j < k ==> LineRow(d[j]).Ok?)
  {
    VcfRowsSkipComments(lines);
    GatherAll(PerLine(DataLines(lines)));
  }

  /** A blank line, or one of whitespace only, is a data line with one field: it fails with `IndexError`. */
  lemma BlankLineFails(line: string)
    requires forall k :: 0 <= k < |line| ==> IsSpace(line[k])
    ensures !IsComment(line)
    ensures LineRow(line) == Err(IndexError(IndexOutOfRange))
  {
    assert Strip(line) == [];
    assert Split([], '\t') == [[]];
  }

  /**
   * A data line written as tab-separated fields, the second being a decimal integer,
   * parses back to CHROM = field 0, POS = that integer, REF = field 3 and ALT = field 4;
   * field 2 and any further field are ignored.
   */
  lemma VcfLineRoundTrip(chrom: string, pos: int, id: string, ref: string, alt: string, rest: seq<string>)
    requires var fields := [chrom, IntToString(pos), id, ref, alt] + rest;
             forall k :: 0 <= k < |fields| ==> '\t' !in fields[k]
    requires |chrom| > 0 && !IsSpace(chrom[0]) && chrom[0] != '#'
    requires var last := if rest == [] then alt else rest[|rest| - 1];
             |last| > 0 && !IsSpace(last[|last| - 1])
    ensures var line := Join([chrom, IntToString(pos), id, ref, alt] + rest, "\t");
            !IsComment(line) && LineRow(line) == Ok([VStr(chrom), VInt(pos), VStr(ref), VStr(alt)])
  {
    var fields := [chrom, IntToString(pos), id, ref, alt] + rest;
    var line := Join(fields, "\t");
    assert |fields| == 5 + |rest|;
    assert fields[|fields| - 1] == if rest == [] then alt else rest[|rest| - 1];
    FieldsOfJoin(fields);
    assert fields[0] == chrom && fields[1] == IntToString(pos) && fields[3] == ref && fields[4] == alt;
    ParseIntOfIntToString(pos);
    LineRowOfFields(line, fields, pos);
  }

  /** A line whose fields are known: the row is read off fields 0, 1, 3 and 4. */
  lemma LineRowOfFields(line: string, fields: seq<string>, pos: int)
    requires Fields(line) == fields && |fields| >= 5 && ParseInt(fields[1]) == Some(pos)
    ensures LineRow(line) == Ok([VStr(fields[0]), VInt(pos), VStr(fields[3]), VStr(fields[4])])
  {
  }

  /** Tab-joined fields without surrounding whitespace split back into those fields. */
  lemma FieldsOfJoin(fields: seq<string>)
    requires |fields| >= 1 && forall k :: 0 <= k < |fields| ==> '\t' !in fields[k]
    requires |fields[0]| > 0 && !IsSpace(fields[0][0]) && fields[0][0] != '#'
    requires var last := fields[|fields| - 1]; |last| > 0 && !IsSpace(last[|last| - 1])
    ensures Fields(Join(fields, "\t")) == fields
    ensures !IsComment(Join(fields, "\t"))
  {
    var line := Join(fields, "\t");
    JoinFirst(fields, "\t");
    JoinLast(fields, "\t");
    StripTrimmed(line);
    SplitJoin(fields, '\t');
    assert line[..1] == [fields[0][0]];
  }

  // ----- the required-column check (app.py:118-128) -----

  predicate HasRequiredColumns(t: Table) {
    forall c :: c in Keys ==> c in t.columns
  }

  /** A VCF upload has the required columns exactly when it has at least one data row. */
  lemma VcfFrameColumns(rows: seq<Row>)
    requires forall k :: 0 <= k < |rows| ==> |rows[k]| == |Keys|
    ensures HasRequiredColumns(VcfFrame(rows)) <==> rows != []
  {
    if rows == [] {
      assert "CHROM" in Keys;
    }
  }

  // ----- key normalisation (app.py:136-137) -----

  /** The table with each named column converted by `astype(str)`, in order. */
  function NormalizeAll(t: Table, names: seq<string>): (r: Table)
    requires WellFormed(t) && forall c :: c in names ==> c in t.columns
    ensures WellFormed(r) && r.columns == t.columns && |r.rows| == |t.rows|
    ensures forall k, c :: 0 <= k < |r.rows| && c in names ==> Cell(r, k, c) == AsStr(Cell(t, k, c))
    ensures forall k, c :: 0 <= k < |r.rows| && c in t.columns && c !in names ==> Cell(r, k, c) == Cell(t, k, c)
    decreases |names|
  {
    if names == [] then t
    else
      var init := names[..|names| - 1];
      var last := names[|names| - 1];
      assert forall c :: c in names <==> c in init || c == last;
      StrColumn(NormalizeAll(t, init), last)
  }

  /** After normalisation every key cell is text, so keys compare as the strings they print as. */
  lemma NormalizedKeyCells(t: Table, k: nat)
    requires WellFormed(t) && HasRequiredColumns(t) && k < |t.rows|
    ensures var n := NormalizeAll(t, Keys);
            forall c :: c in Keys ==> Cell(n, k, c) == VStr(Str(Cell(t, k, c)))
  {
  }

  /** An integer POS and the same number written as text have the same key after normalisation. */
  lemma IntegerPositionMatchesText(pos: int)
    ensures AsStr(VInt(pos)) == AsStr(VStr(IntToString(pos)))
  {
  }

  /** Position of the first key missing from either frame, or `|names|`. */
  function FirstMissing(left: seq<string>, right: seq<string>, names: seq<string>): (i: nat)
    ensures i <= |names|
    ensures forall j :: 0 <= j < i ==> names[j] in left && names[j] in right
    ensures i < |names| ==> names[i] !in left || names[i] !in right
  {
    if names == [] then 0
    else if names[0] !in left || names[0] !in right then 0
    else 1 + FirstMissing(left, right, names[1..])
  }

  /**
   * The normalisation loop: `df[c]` and then `clinvar_df[c]` become text for each key in
   * turn; a key missing from a frame raises `KeyError` there, after the earlier
   * conversions have been made.
   */
  method NormalizeKeys(df: Frame, ref: Frame) returns (err: Option<Exc>)
    requires df.Valid() && ref.Valid() && df != ref
    modifies df, ref
    ensures df.Valid() && ref.Valid()
    ensures var i := FirstMissing(old(df.columns), old(ref.columns), Keys);
            if i == |Keys| then
              err.None? && df.Snapshot() == NormalizeAll(old(df.Snapshot()), Keys)
              && ref.Snapshot() == NormalizeAll(old(ref.Snapshot()), Keys)
            else
              err == Some(KeyError(VStr(Keys[i])))
              && ref.Snapshot() == NormalizeAll(old(ref.Snapshot()), Keys[..i])
              && df.Snapshot() == NormalizeAll(old(df.Snapshot()), if Keys[i] in old(df.columns) then Keys[..i + 1] else Keys[..i])
  {
    ghost var df0 := df.Snapshot();
    ghost var ref0 := ref.Snapshot();
    var i := 0;
    while i < |Keys|
      invariant 0 <= i <= |Keys|
      invariant df.Valid() && ref.Valid()
      invariant forall j :: 0 <= j < i ==> Keys[j] in df0.columns && Keys[j] in ref0.columns
      invariant df.Snapshot() == NormalizeAll(df0, Keys[..i])
      invariant ref.Snapshot() == NormalizeAll(ref0, Keys[..i])
    {
      var e := df.AsTypeStr(Keys[i]);
      if e.Some? {
        FirstMissingAt(df0.columns, ref0.columns, Keys, i);
        return e;
      }
      NormalizeStep(df0, Keys, i);
      var e2 := ref.AsTypeStr(Keys[i]);
      if e2.Some? {
        FirstMissingAt(df0.columns, ref0.columns, Keys, i);
        return e2;
      }
      NormalizeStep(ref0, Keys, i);
      i := i + 1;
    }
    FirstMissingAt(df0.columns, ref0.columns, Keys, i);
    assert Keys[..i] == Keys;
    err := None;
  }

  lemma NormalizeStep(t: Table, names: seq<string>, i: nat)
    requires WellFormed(t) && i < |names| && forall j :: 0 <= j <= i ==> names[j] in t.columns
    ensures NormalizeAll(t, names[..i + 1]) == StrColumn(NormalizeAll(t, names[..i]), names[i])
  {
    assert names[..i + 1][..i] == names[..i];
  }

  /** The first missing key is the first position where a key is missing. */
  lemma FirstMissingAt(left: seq<string>, right: seq<string>, names: seq<string>, i: nat)
    requires i <= |names| && forall j :: 0 <= j < i ==> names[j] in left && names[j] in right
    requires i < |names| ==> names[i] !in left || names[i] !in right
    ensures FirstMissing(left, right, names) == i
  {
  }

  // ----- the join and the ClinGen class (app.py:138-140) -----

  const ValidityColumn: string := "ClinGen_Validity"

  /** `genes.apply(lambda g: get_clingen_classification(g, clingen_df))`: the first failure propagates. */
  function ClassifyAll(genes: seq<Value>, clingen: ValidityTable): (r: Result<seq<Value>, Exc>)
    ensures r.Ok? <==> genes == [] || clingen.Validity?
    ensures r.Err? ==> r.error == KeyError(VStr(GeneLabel))
    ensures r.Ok? ==> |r.value| == |genes|
                      && forall k :: 0 <= k < |genes| ==> r.value[k] == VStr(Classification(genes[k], clingen).value)
    decreases |genes|
  {
    if genes == [] then Ok([])
    else
      match ClassifyAll(genes[..|genes| - 1], clingen)
      case Err(e) => Err(e)
      case Ok(classes) =>
        match Classification(genes[|genes| - 1], clingen)
        case Err(e) => Err(e)
        case Ok(c) => Ok(classes + [VStr(c)])
  }

  /** The merged frame with the ClinGen class of every row's gene. */
  function Classified(merged: Table, clingen: ValidityTable): (r: Result<Table, Exc>)
    requires WellFormed(merged)
    ensures r.Ok? ==> WellFormed(r.value) && |r.value.rows| == |merged.rows|
  {
    match Column(merged, "GENE")
    case Err(e) => Err(e)
    case Ok(genes) =>
      match ClassifyAll(genes, clingen)
      case Err(e) => Err(e)
      case Ok(classes) => Ok(WithColumn(merged, ValidityColumn, classes))
  }

  /** `matched`: the left join on the four keys, classified, restricted to rows with an `ID`. */
  function Matched(upload: Table, reference: Table, clingen: ValidityTable): (r: Result<Table, Exc>)
    requires JoinReady(upload, reference, Keys)
    requires Distinct(JoinedColumns(upload.columns, reference.columns, Keys))
    ensures r.Ok? ==> WellFormed(r.value)
  {
    LeftJoinWellFormed(upload, reference, Keys);
    match Classified(LeftJoin(upload, reference, Keys).value, clingen)
    case Err(e) => Err(e)
    case Ok(classified) => KeepPresent(classified, "ID")
  }

  /**
   * Every merged row gets the ClinGen class of its gene, and `matched` is exactly the
   * classified rows whose `ID` is present, in merged order.
   */
  lemma MatchedRows(upload: Table, reference: Table, clingen: ValidityTable)
    requires JoinReady(upload, reference, Keys)
    requires Distinct(JoinedColumns(upload.columns, reference.columns, Keys))
    requires LeftJoin(upload, reference, Keys).Ok?
    requires Classified(LeftJoin(upload, reference, Keys).value, clingen).Ok?
    ensures var merged := LeftJoin(upload, reference, Keys).value;
            var classified := Classified(merged, clingen).value;
            && (forall k :: 0 <= k < |merged.rows| ==>
                  Cell(classified, k, ValidityColumn) == VStr(Classification(Cell(merged, k, "GENE"), clingen).value))
            && (Matched(upload, reference, clingen).Ok? <==> "ID" in classified.columns)
            && (Matched(upload, reference, clingen).Ok? ==>
                  Matched(upload, reference, clingen).value.rows
                  == PresentRows(classified.rows, ColumnIndex(classified.columns, "ID")))
  {
    var merged := LeftJoin(upload, reference, Keys).value;
    LeftJoinWellFormed(upload, reference, Keys);
    var genes := Column(merged, "GENE").value;
    assert forall k :: 0 <= k < |merged.rows| ==> Cell(merged, k, "GENE") == genes[k];
  }

  /** With the empty ClinGen fallback, any merged row makes the class lookup raise `KeyError`. */
  lemma EmptyClingenFails(upload: Table, reference: Table)
    requires JoinReady(upload, reference, Keys) && |upload.rows| > 0
    requires Distinct(JoinedColumns(upload.columns, reference.columns, Keys))
    requires LeftJoin(upload, reference, Keys).Ok?
    requires "GENE" in LeftJoin(upload, reference, Keys).value.columns
    ensures Matched(upload, reference, EmptyFrame) == Err(KeyError(VStr(GeneLabel)))
  {
    LeftJoinWellFormed(upload, reference, Keys);
  }

  /** An upload without rows never calls the lookup, so even the empty fallback does not raise. */
  lemma NoRowsNoLookup(upload: Table, reference: Table, clingen: ValidityTable)
    requires JoinReady(upload, reference, Keys) && upload.rows == []
    requires Distinct(JoinedColumns(upload.columns, reference.columns, Keys))
    requires LeftJoin(upload, reference, Keys).Ok?
    requires "GENE" in LeftJoin(upload, reference, Keys).value.columns
    ensures Classified(LeftJoin(upload, reference, Keys).value, clingen).Ok?
  {
    LeftJoinWellFormed(upload, reference, Keys);
  }

  // ----- the per-row results (app.py:146-200) -----

  /** What `generate_with_gemini` gives: a text, or an exception. */
  datatype Generation = Generated(text: string) | GenerationRaised(error: Exc)

  /**
   * The services a row needs. `elink` is the ELink reply for a ClinVar variation id
   * (what `get_pubmed_ids_from_clinvar` requests); `gnomad` is the cached allele
   * frequency fetch, whose code is not part of this model; `llm` is the language model
   * on the prompt built from the row, its PubMed ids and its gnomAD statistics.
   */
  datatype Services = Services(
    elink: string -> HttpOutcome,
    gnomad: (Value, Value, Value, Value) -> Value,
    llm: (Row, Value, Value) -> Generation)

  /** `row[name]`. */
  function RowItem(columns: seq<string>, row: Row, name: string): (r: Result<Value, Exc>)
    requires |row| == |columns|
    ensures r.Ok? <==> name in columns
    ensures r.Err? ==> r.error == KeyError(VStr(name))
    ensures r.Ok? ==> var k := ColumnIndex(columns, name); k < |columns| && columns[k] == name && r.value == row[k]
  {
    if name in columns then Ok(row[ColumnIndex(columns, name)]) else Err(KeyError(VStr(name)))
  }

  /** A fetch result that is a dict with `"error"` is replaced by `default`. */
  function ErrorDictOr(response: Value, default: Value): (r: Value)
    ensures r == response || r == default
    ensures r == default <== HasKey(response, "error")
    ensures r == response <== !HasKey(response, "error")
  {
    if response.VDict? && HasKey(response, "error") then default else response
  }

  /**
   * The parts of the prompt that can raise, outside the `try`: joining the PubMed ids
   * when there are any, then `stats.get(...)`.
   */
  function PromptFailure(pmids: Value, stats: Value): (r: Option<Exc>)
    ensures r.None? ==> stats.VDict?
    ensures !stats.VDict? && !Truthy(pmids) ==> r == Some(NoAttribute(stats, "get"))
    ensures r.None? <==> (!Truthy(pmids) || (Iter(pmids).Ok? && AllStr(Iter(pmids).value))) && stats.VDict?
    ensures Truthy(pmids) && Iter(pmids).Err? ==> r == Some(Iter(pmids).error)
    ensures Truthy(pmids) && Iter(pmids).Ok? && !AllStr(Iter(pmids).value) ==>
              r == Some(JoinStrs(Iter(pmids).value, ", ").error) && r.value.TypeError?
    ensures Truthy(pmids) && Iter(pmids).Ok? && AllStr(Iter(pmids).value) && !stats.VDict? ==>
              r == Some(NoAttribute(stats, "get"))
  {
    var joinFailure :=
      if !Truthy(pmids) then None
      else
        match Iter(pmids)
        case Err(e) => Some(e)
        case Ok(items) =>
          match JoinStrs(items, ", ")
          case Err(e) => Some(e)
          case Ok(_) => None;
    if joinFailure.Some? then joinFailure
    else
      match Get(stats, "Exome_AC", VStr("N/A"))
      case Err(e) => Some(e)
      case Ok(_) => None
  }

  /** The commentary: the generated text, or `"❌ " + str(e)` when the model raised. */
  function Commentary(g: Generation): string {
    match g
    case Generated(text) => text
    case GenerationRaised(e) => "❌ " + Message(e)
  }

  /** `row.to_dict()`. */
  function RowEntries(columns: seq<string>, row: Row): (es: seq<(string, Value)>)
    requires |row| == |columns|
    ensures |es| == |columns| && forall k :: 0 <= k < |columns| ==> es[k] == (columns[k], row[k])
  {
    seq(|columns|, k requires 0 <= k < |columns| => (columns[k], row[k]))
  }

  /** `{**row.to_dict(), "PubMed_Links": pmids, **stats, "Gemini_Yorum": yorum}`. */
  function ResultEntries(columns: seq<string>, row: Row, pmids: Value, stats: seq<(string, Value)>, commentary: string)
    : seq<(string, Value)>
    requires |row| == |columns|
  {
    PutEntry(PutAll(PutEntry(PutAll([], RowEntries(columns, row)), "PubMed_Links", pmids), stats),
             "Gemini_Yorum", VStr(commentary))
  }

  /** The PubMed ids of a row's ClinVar variation id, as the loop sees them. */
  function RowPmids(id: int, s: Services): Value {
    ErrorDictOr(VList(ElinkIds(s.elink(IntToString(id)))), VList([]))
  }

  /** The gnomAD statistics of a variant, as the loop sees them. */
  function RowStats(chrom: Value, pos: Value, ref: Value, alt: Value, s: Services): Value {
    ErrorDictOr(s.gnomad(chrom, pos, ref, alt), VDict([]))
  }

  /** The four key cells of a row, read in the order the loop reads them. */
  function VariantCells(columns: seq<string>, row: Row): (r: Result<seq<Value>, Exc>)
    requires |row| == |columns|
    ensures r.Ok? <==> HasRequiredColumns(Table(columns, [row]))
    ensures r.Ok? ==> |r.value| == 4
    ensures r.Ok? ==> forall k :: 0 <= k < 4 ==> r.value[k] == row[ColumnIndex(columns, Keys[k])]
    ensures r.Err? ==> r.error == KeyError(VStr(if "CHROM" !in columns then "CHROM"
                                               else if "POS" !in columns then "POS"
                                               else if "REF" !in columns then "REF"
                                               else "ALT"))
  {
    match RowItem(columns, row, "CHROM")
    case Err(e) => Err(e)
    case Ok(chrom) =>
      match RowItem(columns, row, "POS")
      case Err(e) => Err(e)
      case Ok(pos) =>
        match RowItem(columns, row, "REF")
        case Err(e) => Err(e)
        case Ok(ref) =>
          match RowItem(columns, row, "ALT")
          case Err(e) => Err(e)
          case Ok(alt) => Ok([chrom, pos, ref, alt])
  }

  /** The result of one matched row, or the exception that ends the loop. */
  function RowResult(columns: seq<string>, row: Row, s: Services): Result<Value, Exc>
    requires |row| == |columns|
  {
    match VariantCells(columns, row)
    case Err(e) => Err(e)
    case Ok(v) =>
      match RowItem(columns, row, "ID")
      case Err(e) => Err(e)
      case Ok(idCell) =>
        match ToInt(idCell)
        case Err(e) => Err(e)
        case Ok(id) =>
          var pmids := RowPmids(id, s);
          var stats := RowStats(v[0], v[1], v[2], v[3], s);
          match PromptFailure(pmids, stats)
          case Some(e) => Err(e)
          case None => Ok(VDict(ResultEntries(columns, row, pmids, stats.entries, Commentary(s.llm(row, pmids, stats)))))
  }

  /** The per-row results, in iteration order. */
  function PerRow(columns: seq<string>, rows: seq<Row>, s: Services): (rs: seq<Result<Value, Exc>>)
    requires forall k :: 0 <= k < |rows| ==> |rows[k]| == |columns|
    ensures |rs| == |rows| && forall k :: 0 <= k < |rows| ==> rs[k] == RowResult(columns, rows[k], s)
  {
    seq(|rows|, k requires 0 <= k < |rows| => RowResult(columns, rows[k], s))
  }

  /** The result loop over `matched.iterrows()`. */
  method InterpretRows(matched: Table, s: Services) returns (r: Result<seq<Value>, Exc>)
    requires WellFormed(matched)
    ensures r == Gather(PerRow(matched.columns, matched.rows, s))
  {
    var rows := matched.rows;
    ghost var rs := PerRow(matched.columns, rows, s);
    var results: seq<Value> := [];
    var i := 0;
    while i < |rows|
      invariant 0 <= i <= |rows|
      invariant Gather(rs[..i]) == Ok(results)
    {
      assert rs[..i + 1][..i] == rs[..i];
      var result := RowResult(matched.columns, rows[i], s);
      assert result == rs[i];
      if result.Err? {
        GatherStaysFailed(rs, i + 1);
        return Err(result.error);
      }
      results := results + [result.value];
      i := i + 1;
    }
    assert rs[..i] == rs;
    return Ok(results);
  }

  /**
   * One result per matched row, in iteration order: the loop succeeds exactly when every
   * row does, and result `k` is row `k`'s; otherwise a failing row's exception ends it.
   */
  lemma OneResultPerRow(columns: seq<string>, rows: seq<Row>, s: Services)
    requires forall k :: 0 <= k < |rows| ==> |rows[k]| == |columns|
    ensures var r := Gather(PerRow(columns, rows, s));
            && (r.Ok? <==> forall k :: 0 <= k < |rows| ==> RowResult(columns, rows[k], s).Ok?)
            && (r.Ok? ==> |r.value| == |rows| && forall k :: 0 <= k < |rows| ==> r.value[k] == RowResult(columns, rows[k], s).value)
            && (r.Err? ==> exists k :: 0 <= k < |rows| && RowResult(columns, rows[k], s) == Err(r.error))
  {
    var rs := PerRow(columns, rows, s);
    GatherAll(rs);
    if Gather(rs).Err? {
      var k :| 0 <= k < |rs| && rs[k] == Err(Gather(rs).error);
      assert RowResult(columns, rows[k], s) == Err(Gather(rs).error);
    }
  }

  /** The PubMed fetch never returns a dict, so its error branch is never taken. */
  lemma PubmedIdsKept(id: int, s: Services)
    ensures RowPmids(id, s) == VList(ElinkIds(s.elink(IntToString(id))))
  {
  }

  /** A gnomAD failure record, which carries `error`, is replaced by the empty statistics. */
  lemma GnomadFailureDropped(variantId: string, e: Exc)
    ensures ErrorDictOr(GnomadHandler.FailureRecord(variantId, e), VDict([])) == VDict([])
  {
  }

  /** `row.to_dict()` maps each column to the row's cell under it. */
  lemma RowDictLookup(columns: seq<string>, row: Row, c: string)
    requires |row| == |columns| && Distinct(columns)
    ensures Lookup(PutAll([], RowEntries(columns, row)), c)
            == if c in columns then Some(row[ColumnIndex(columns, c)]) else None
  {
    var base := RowEntries(columns, row);
    if c in columns {
      assert DistinctKeys(base) by {
        forall i, j | 0 <= i < j < |base| ensures base[i].0 != base[j].0 {
          assert base[i].0 == columns[i] && base[j].0 == columns[j];
        }
      }
      assert KeyIndex(base, c) == ColumnIndex(columns, c);
      PutAllPresent([], base, c);
    } else {
      assert Lookup(base, c) == None by {
        forall j | 0 <= j < |base| ensures base[j].0 != c {
          assert base[j].0 == columns[j];
        }
      }
      PutAllAbsent([], base, c);
    }
  }

  /** The commentary is always under `Gemini_Yorum`; nothing overrides it. */
  lemma ResultCommentary(columns: seq<string>, row: Row, pmids: Value, stats: seq<(string, Value)>, commentary: string)
    requires |row| == |columns|
    ensures Lookup(ResultEntries(columns, row, pmids, stats, commentary), "Gemini_Yorum") == Some(VStr(commentary))
  {
  }

  /** A gnomAD statistic is kept under its own key, overriding a row cell or the PubMed ids. */
  lemma ResultStats(columns: seq<string>, row: Row, pmids: Value, stats: seq<(string, Value)>, commentary: string, c: string)
    requires |row| == |columns| && DistinctKeys(stats)
    requires c != "Gemini_Yorum" && Lookup(stats, c).Some?
    ensures Lookup(ResultEntries(columns, row, pmids, stats, commentary), c) == Lookup(stats, c)
  {
    PutAllPresent(PutEntry(PutAll([], RowEntries(columns, row)), "PubMed_Links", pmids), stats, c);
  }

  /** The PubMed ids are under `PubMed_Links` unless the statistics bring that key. */
  lemma ResultPubmedLinks(columns: seq<string>, row: Row, pmids: Value, stats: seq<(string, Value)>, commentary: string)
    requires |row| == |columns| && Lookup(stats, "PubMed_Links") == None
    ensures Lookup(ResultEntries(columns, row, pmids, stats, commentary), "PubMed_Links") == Some(pmids)
  {
    PutAllAbsent(PutEntry(PutAll([], RowEntries(columns, row)), "PubMed_Links", pmids), stats, "PubMed_Links");
  }

  /** A row cell is kept under its column unless a later part of the dict brings that key. */
  lemma ResultRowCells(columns: seq<string>, row: Row, pmids: Value, stats: seq<(string, Value)>, commentary: string, c: string)
    requires |row| == |columns| && Distinct(columns)
    requires c in columns && c != "Gemini_Yorum" && c != "PubMed_Links" && Lookup(stats, c) == None
    ensures Lookup(ResultEntries(columns, row, pmids, stats, commentary), c) == Some(row[ColumnIndex(columns, c)])
  {
    RowDictLookup(columns, row, c);
    PutAllAbsent(PutEntry(PutAll([], RowEntries(columns, row)), "PubMed_Links", pmids), stats, c);
  }

  /** The result holds exactly the row's columns, `PubMed_Links`, the statistics' keys and `Gemini_Yorum`. */
  lemma ResultKeys(columns: seq<string>, row: Row, pmids: Value, stats: seq<(string, Value)>, commentary: string, c: string)
    requires |row| == |columns| && Distinct(columns)
    ensures Lookup(ResultEntries(columns, row, pmids, stats, commentary), c).Some?
            <==> c in columns || c == "PubMed_Links" || c == "Gemini_Yorum" || Lookup(stats, c).Some?
  {
    RowDictLookup(columns, row, c);
    PutAllKeys(PutEntry(PutAll([], RowEntries(columns, row)), "PubMed_Links", pmids), stats, c);
  }

  /**
   * A model failure does not end the loop: the row still gives a result, whose
   * `Gemini_Yorum` is `"❌ "` followed by the exception text.
   */
  lemma GenerationFailureIsolated(columns: seq<string>, row: Row, s: Services)
    requires |row| == |columns| && Distinct(columns)
    requires RowResult(columns, row, s).Ok?
    ensures var v := VariantCells(columns, row).value;
            var id := ToInt(RowItem(columns, row, "ID").value).value;
            var pmids := RowPmids(id, s);
            var stats := RowStats(v[0], v[1], v[2], v[3], s);
            && stats.VDict?
            && RowResult(columns, row, s) == Ok(VDict(ResultEntries(columns, row, pmids, stats.entries, Commentary(s.llm(row, pmids, stats)))))
            && (s.llm(row, pmids, stats).GenerationRaised? ==>
                  Lookup(RowResult(columns, row, s).value.entries, "Gemini_Yorum")
                  == Some(VStr("❌ " + Message(s.llm(row, pmids, stats).error))))
  {
  }

  // ----- the whole interpretation -----

  /**
   * How a run ends. `RepeatedLabels` is a merge that pandas accepts although the merged
   * frame repeats a label (an upload column `c_y` beside a ClinVar column `c`); the model
   * does not follow the run on such a frame.
   */
  datatype Outcome = MissingColumns | Failed(error: Exc) | RepeatedLabels(columns: seq<string>) | Results(results: seq<Value>)

  /** What the app does with an upload: the check, the normalisation, the match and the result loop. */
  function Interpretation(upload: Table, reference: Table, clingen: ValidityTable, s: Services): (o: Outcome)
    requires WellFormed(upload) && WellFormed(reference)
    ensures o.MissingColumns? <==> !HasRequiredColumns(upload)
    ensures o.RepeatedLabels? ==> !Distinct(o.columns) && o.columns == JoinedColumns(upload.columns, reference.columns, Keys)
  {
    if !HasRequiredColumns(upload) then MissingColumns
    else
      var i := FirstMissing(upload.columns, reference.columns, Keys);
      if i < |Keys| then Failed(KeyError(VStr(Keys[i])))
      else
        var left := NormalizeAll(upload, Keys);
        var right := NormalizeAll(reference, Keys);
        if !Distinct(JoinedColumns(left.columns, right.columns, Keys)) then
          match LeftJoin(left, right, Keys)
          case Err(e) => Failed(e)
          case Ok(merged) => RepeatedLabels(merged.columns)
        else match Matched(left, right, clingen)
        case Err(e) => Failed(e)
        case Ok(matched) =>
          match Gather(PerRow(matched.columns, matched.rows, s))
          case Err(e) => Failed(e)
          case Ok(results) => Results(results)
  }

  /**
   * The app from the required-column check on, on the uploaded frame and the ClinVar
   * reference frame, which the normalisation changes in place.
   */
  method Interpret(df: Frame, clinvar: Frame, clingen: ValidityTable, s: Services) returns (o: Outcome)
    requires df.Valid() && clinvar.Valid() && df != clinvar
    modifies df, clinvar
    ensures o == Interpretation(old(df.Snapshot()), old(clinvar.Snapshot()), clingen, s)
    ensures df.Valid() && clinvar.Valid()
    ensures o.MissingColumns? ==> df.Snapshot() == old(df.Snapshot()) && clinvar.Snapshot() == old(clinvar.Snapshot())
    ensures !o.MissingColumns? ==>
              var i := FirstMissing(old(df.columns), old(clinvar.columns), Keys);
              if i == |Keys| then
                df.Snapshot() == NormalizeAll(old(df.Snapshot()), Keys)
                && clinvar.Snapshot() == NormalizeAll(old(clinvar.Snapshot()), Keys)
              else
                clinvar.Snapshot() == NormalizeAll(old(clinvar.Snapshot()), Keys[..i])
                && df.Snapshot() == NormalizeAll(old(df.Snapshot()), if Keys[i] in old(df.columns) then Keys[..i + 1] else Keys[..i])
  {
    if !HasRequiredColumns(df.Snapshot()) {
      return MissingColumns;
    }
    var err := NormalizeKeys(df, clinvar);
    if err.Some? {
      return Failed(err.value);
    }
    if !Distinct(JoinedColumns(df.columns, clinvar.columns, Keys)) {
      var merged := LeftJoin(df.Snapshot(), clinvar.Snapshot(), Keys);
      if merged.Err? {
        return Failed(merged.error);
      }
      return RepeatedLabels(merged.value.columns);
    }
    var matched := Matched(df.Snapshot(), clinvar.Snapshot(), clingen);
    if matched.Err? {
      return Failed(matched.error);
    }
    var results := InterpretRows(matched.value, s);
    if results.Err? {
      return Failed(results.error);
    }
    return Results(results.value);
  }

  /** A VCF upload with no data line never reaches the matching: it lacks the required columns. */
  lemma HeaderOnlyUploadStops(lines: seq<string>, reference: Table, clingen: ValidityTable, s: Services)
    requires WellFormed(reference)
    requires VcfRows(lines).Ok? && DataLines(lines) == []
    ensures Interpretation(VcfFrame(VcfRows(lines).value), reference, clingen, s) == MissingColumns
  {
    VcfRowsOfDataLines(lines);
    VcfFrameColumns(VcfRows(lines).value);
  }
}
