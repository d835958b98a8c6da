/**
 * The ClinVar INFO-field extractors and the enrichment of the reference table
 * (clinvar_parser.py). INFO is the eighth fixed field of a VCF record: semicolon-
 * separated `key=value` entries (section 1.6.1 of the VCF v4.3 specification). Each
 * extractor is one `re.search(KEY=(c+))` with a fixed character class `c`, modelled
 * as a scan for the leftmost position where the key is followed by at least one
 * class character, then the maximal run of such characters.
 */
module ClinvarParser {
  import opened Wrappers
  import opened PyText
  import opened PyValues
  import opened Tables

  /** The character classes of the capture groups. */
  datatype CharClass =
    | NotSemicolon    // [^;]
    | GeneSymbolChar  // [A-Z0-9\-]
    | DecimalDigit    // [0-9]

  predicate InClass(cls: CharClass, c: char) {
    match cls
    case NotSemicolon => c != ';'
    case GeneSymbolChar => ('A' <= c <= 'Z') || ('0' <= c <= '9') || c == '-'
    case DecimalDigit => '0' <= c <= '9'
  }

  /** `key` occurs at `i` and is followed by at least one character of `cls`: the pattern matches here. */
  predicate MatchesAt(s: string, key: string, cls: CharClass, i: nat) {
    i + |key| < |s| && s[i..i + |key|] == key && InClass(cls, s[i + |key|])
  }

  /** The pattern matches at `i` and at no earlier position: where `re.search` stops. */
  ghost predicate LeftmostAt(s: string, key: string, cls: CharClass, i: nat) {
    MatchesAt(s, key, cls, i) && forall j: nat :: j < i ==> !MatchesAt(s, key, cls, j)
  }

  /** The end of the maximal run of `cls` characters that starts at `j`. */
  function RunEnd(s: string, cls: CharClass, j: nat): (e: nat)
    requires j <= |s|
    ensures j <= e <= |s|
    ensures forall k :: j <= k < e ==> InClass(cls, s[k])
    ensures e < |s| ==> !InClass(cls, s[e])
    decreases |s| - j
  {
    if j < |s| && InClass(cls, s[j]) then RunEnd(s, cls, j + 1) else j
  }

  /** `v` is what group 1 of the search captures: the greedy run after the leftmost match. */
  ghost predicate Captures(s: string, key: string, cls: CharClass, v: string) {
    exists i: nat :: LeftmostAt(s, key, cls, i) && v == s[i + |key|..RunEnd(s, cls, i + |key|)]
  }

  /** The first position at or after `from` where the pattern matches, or `|s|`. */
  function FirstMatch(s: string, key: string, cls: CharClass, from: nat): (i: nat)
    requires from <= |s|
    ensures from <= i <= |s|
    ensures i < |s| ==> MatchesAt(s, key, cls, i)
    ensures forall j: nat :: from <= j < i ==> !MatchesAt(s, key, cls, j)
    decreases |s| - from
  {
    if from == |s| then |s|
    else if MatchesAt(s, key, cls, from) then from
    else FirstMatch(s, key, cls, from + 1)
  }

  /** `re.search(key + "(" + cls + "+)", s)`, giving group 1 or `None`. */
  function Search(s: string, key: string, cls: CharClass): (r: Option<string>)
    ensures r.None? <==> forall i: nat :: !MatchesAt(s, key, cls, i)
    ensures r.Some? ==> Captures(s, key, cls, r.value)
    ensures r.Some? ==> |r.value| >= 1 && forall k :: 0 <= k < |r.value| ==> InClass(cls, r.value[k])
  {
    var i := FirstMatch(s, key, cls, 0);
    if i == |s| then None
    else
      var e := RunEnd(s, cls, i + |key|);
      assert LeftmostAt(s, key, cls, i);
      Some(s[i + |key|..e])
  }

  /** The capture, when there is one, is determined by the string: two captures are equal. */
  lemma CapturesUnique(s: string, key: string, cls: CharClass, v: string, w: string)
    requires Captures(s, key, cls, v) && Captures(s, key, cls, w)
    ensures v == w
  {
    var i: nat :| LeftmostAt(s, key, cls, i) && v == s[i + |key|..RunEnd(s, cls, i + |key|)];
    var j: nat :| LeftmostAt(s, key, cls, j) && w == s[j + |key|..RunEnd(s, cls, j + |key|)];
    assert i < j ==> !MatchesAt(s, key, cls, i);
    assert j < i ==> !MatchesAt(s, key, cls, j);
  }

  lemma FirstMatchIs(s: string, key: string, cls: CharClass, i: nat)
    requires MatchesAt(s, key, cls, i)
    requires forall j: nat :: j < i ==> !MatchesAt(s, key, cls, j)
    ensures FirstMatch(s, key, cls, 0) == i
  {
    var f := FirstMatch(s, key, cls, 0);
    assert f <= i;
    assert f < |s|;
  }

  lemma {:induction false} RunEndIs(s: string, cls: CharClass, j: nat, e: nat)
    requires j <= e <= |s|
    requires forall k :: j <= k < e ==> InClass(cls, s[k])
    requires e < |s| ==> !InClass(cls, s[e])
    ensures RunEnd(s, cls, j) == e
    decreases e - j
  {
    if j < e {
      RunEndIs(s, cls, j + 1, e);
    }
  }

  /**
   * Reading back a written INFO entry: in `prefix + key + v + suffix`, when the pattern
   * does not match inside `prefix`, `v` is a run of class characters and `suffix` does
   * not continue it (it is empty or starts with the next `;`), the search captures `v`.
   */
  lemma SearchOfEntry(prefix: string, key: string, cls: CharClass, v: string, suffix: string)
    requires forall i: nat :: i < |prefix| ==> !MatchesAt(prefix + key + v + suffix, key, cls, i)
    requires |v| >= 1 && forall k :: 0 <= k < |v| ==> InClass(cls, v[k])
    requires suffix == [] || !InClass(cls, suffix[0])
    ensures Search(prefix + key + v + suffix, key, cls) == Some(v)
  {
    var s := prefix + key + v + suffix;
    var at := |prefix|;
    var start := at + |key|;
    assert s[at..start] == key;
    assert s[start] == v[0];
    assert MatchesAt(s, key, cls, at);
    FirstMatchIs(s, key, cls, at);
    assert forall k :: start <= k < start + |v| ==> s[k] == v[k - start];
    if suffix != [] {
      assert s[start + |v|] == suffix[0];
    }
    RunEndIs(s, cls, start, start + |v|);
    assert s[start..start + |v|] == v;
  }

  /** `value.replace("_", " ")`. */
  function Underscored(v: string): (r: string)
    ensures |r| == |v|
    ensures forall k :: 0 <= k < |v| ==> r[k] == (if v[k] == '_' then ' ' else v[k])
    ensures '_' !in r
  {
    if v == [] then [] else [if v[0] == '_' then ' ' else v[0]] + Underscored(v[1..])
  }

  // ----- the seven extractors; `None` stands for a missing (NA) INFO value -----

  /** `extract_gene`: the gene symbol of `GENEINFO=`; `split(":")[0]` never shortens it. */
  function ExtractGene(info: Option<string>): (r: Option<string>)
    ensures info.None? ==> r.None?
    ensures info.Some? ==> r == Search(info.value, "GENEINFO=", GeneSymbolChar)
    ensures r.Some? ==> |r.value| >= 1 && forall k :: 0 <= k < |r.value| ==> InClass(GeneSymbolChar, r.value[k])
  {
    match info
    case None => None
    case Some(s) =>
      match Search(s, "GENEINFO=", GeneSymbolChar)
      case None => None
      case Some(g) =>
        assert ':' !in g by {
          forall k | 0 <= k < |g| ensures g[k] != ':' { assert InClass(GeneSymbolChar, g[k]); }
        }
        SplitJoin([g], ':');
        Some(Split(g, ':')[0])
  }

  /** `extract_clnsig`: the clinical significance after `CLNSIG=`. */
  function ExtractClnsig(info: Option<string>): (r: Option<string>)
    ensures info.None? ==> r.None?
    ensures info.Some? ==> (r.None? <==> forall i: nat :: !MatchesAt(info.value, "CLNSIG=", NotSemicolon, i))
    ensures r.Some? ==> Captures(info.value, "CLNSIG=", NotSemicolon, r.value)
    ensures r.Some? ==> |r.value| >= 1 && ';' !in r.value
  {
    match info
    case None => None
    case Some(s) => Search(s, "CLNSIG=", NotSemicolon)
  }

  /** `extract_disease`: the disease name after `CLNDN=`, underscores turned into spaces. */
  function ExtractDisease(info: Option<string>): (r: Option<string>)
    ensures info.None? ==> r.None?
    ensures info.Some? ==> (r.None? <==> forall i: nat :: !MatchesAt(info.value, "CLNDN=", NotSemicolon, i))
    ensures r.Some? ==> exists c :: Captures(info.value, "CLNDN=", NotSemicolon, c) && r.value == Underscored(c)
    ensures r.Some? ==> |r.value| >= 1 && ';' !in r.value && '_' !in r.value
  {
    match info
    case None => None
    case Some(s) =>
      match Search(s, "CLNDN=", NotSemicolon)
      case None => None
      case Some(c) =>
        assert ';' !in Underscored(c) by {
          forall k | 0 <= k < |c| ensures Underscored(c)[k] != ';' { assert c[k] != ';'; }
        }
        Some(Underscored(c))
  }

  /** `extract_rs`: the dbSNP number after `RS=`. */
  function ExtractRs(info: Option<string>): (r: Option<string>)
    ensures info.None? ==> r.None?
    ensures info.Some? ==> (r.None? <==> forall i: nat :: !MatchesAt(info.value, "RS=", DecimalDigit, i))
    ensures r.Some? ==> Captures(info.value, "RS=", DecimalDigit, r.value)
    ensures r.Some? ==> |r.value| >= 1 && AllDigits(r.value)
  {
    match info
    case None => None
    case Some(s) => Search(s, "RS=", DecimalDigit)
  }

  /** `extract_clnvc`: the variant type after `CLNVC=`. */
  function ExtractClnvc(info: Option<string>): (r: Option<string>)
    ensures info.None? ==> r.None?
    ensures info.Some? ==> (r.None? <==> forall i: nat :: !MatchesAt(info.value, "CLNVC=", NotSemicolon, i))
    ensures r.Some? ==> Captures(info.value, "CLNVC=", NotSemicolon, r.value)
    ensures r.Some? ==> |r.value| >= 1 && ';' !in r.value
  {
    match info
    case None => None
    case Some(s) => Search(s, "CLNVC=", NotSemicolon)
  }

  /** `extract_clnhgvs`: the HGVS expression after `CLNHGVS=`. */
  function ExtractClnhgvs(info: Option<string>): (r: Option<string>)
    ensures info.None? ==> r.None?
    ensures info.Some? ==> (r.None? <==> forall i: nat :: !MatchesAt(info.value, "CLNHGVS=", NotSemicolon, i))
    ensures r.Some? ==> Captures(info.value, "CLNHGVS=", NotSemicolon, r.value)
    ensures r.Some? ==> |r.value| >= 1 && ';' !in r.value
  {
    match info
    case None => None
    case Some(s) => Search(s, "CLNHGVS=", NotSemicolon)
  }

  /** `extract_clnrevstat`: the review status after `CLNREVSTAT=`, underscores turned into spaces. */
  function ExtractClnrevstat(info: Option<string>): (r: Option<string>)
    ensures info.None? ==> r.None?
    ensures info.Some? ==> (r.None? <==> forall i: nat :: !MatchesAt(info.value, "CLNREVSTAT=", NotSemicolon, i))
    ensures r.Some? ==> exists c :: Captures(info.value, "CLNREVSTAT=", NotSemicolon, c) && r.value == Underscored(c)
    ensures r.Some? ==> |r.value| >= 1 && ';' !in r.value && '_' !in r.value
  {
    match info
    case None => None
    case Some(s) =>
      match Search(s, "CLNREVSTAT=", NotSemicolon)
      case None => None
      case Some(c) =>
        assert ';' !in Underscored(c) by {
          forall k | 0 <= k < |c| ensures Underscored(c)[k] != ';' { assert c[k] != ';'; }
        }
        Some(Underscored(c))
  }

  // ----- the seven derived columns -----

  /** The columns `enrich_clinvar_df` derives, in the order it assigns them. */
  datatype Field = Gene | Clnsig | Disease | Rs | Clnvc | Clnhgvs | Clnrevstat

  const EnrichOrder: seq<Field> := [Gene, Clnsig, Disease, Rs, Clnvc, Clnhgvs, Clnrevstat]

  function ColumnName(f: Field): string {
    match f
    case Gene => "GENE"
    case Clnsig => "CLNSIG"
    case Disease => "DISEASE"
    case Rs => "RS"
    case Clnvc => "CLNVC"
    case Clnhgvs => "CLNHGVS"
    case Clnrevstat => "CLNREVSTAT"
  }

  function InfoKey(f: Field): string {
    match f
    case Gene => "GENEINFO="
    case Clnsig => "CLNSIG="
    case Disease => "CLNDN="
    case Rs => "RS="
    case Clnvc => "CLNVC="
    case Clnhgvs => "CLNHGVS="
    case Clnrevstat => "CLNREVSTAT="
  }

  function Class(f: Field): CharClass {
    match f
    case Gene => GeneSymbolChar
    case Rs => DecimalDigit
    case _ => NotSemicolon
  }

  /** Whether the extractor turns underscores into spaces. */
  predicate Respaces(f: Field) {
    f == Disease || f == Clnrevstat
  }

  function Extract(f: Field, info: Option<string>): Option<string> {
    match f
    case Gene => ExtractGene(info)
    case Clnsig => ExtractClnsig(info)
    case Disease => ExtractDisease(info)
    case Rs => ExtractRs(info)
    case Clnvc => ExtractClnvc(info)
    case Clnhgvs => ExtractClnhgvs(info)
    case Clnrevstat => ExtractClnrevstat(info)
  }

  /**
   * Every extractor reads back the value of a written INFO entry `KEY=v` (for
   * `CLNDN` and `CLNREVSTAT` with underscores turned into spaces), provided the
   * entry is the first place its pattern matches and the next character ends it.
   */
  lemma ExtractOfEntry(f: Field, prefix: string, v: string, suffix: string)
    requires forall i: nat :: i < |prefix| ==> !MatchesAt(prefix + InfoKey(f) + v + suffix, InfoKey(f), Class(f), i)
    requires |v| >= 1 && forall k :: 0 <= k < |v| ==> InClass(Class(f), v[k])
    requires suffix == [] || !InClass(Class(f), suffix[0])
    ensures Extract(f, Some(prefix + InfoKey(f) + v + suffix)) == Some(if Respaces(f) then Underscored(v) else v)
  {
    SearchOfEntry(prefix, InfoKey(f), Class(f), v, suffix);
    ExtractBySearch(f, prefix + InfoKey(f) + v + suffix);
  }

  /** Each extractor is the search for its key and class, with underscores respaced where it does that. */
  lemma ExtractBySearch(f: Field, s: string)
    ensures Extract(f, Some(s)) == match Search(s, InfoKey(f), Class(f))
                                   case None => None
                                   case Some(v) => Some(if Respaces(f) then Underscored(v) else v)
  {
    match f {
      case Gene =>
      case Clnsig =>
      case Disease =>
      case Rs =>
      case Clnvc =>
      case Clnhgvs =>
      case Clnrevstat =>
    }
  }

  /** The INFO cell as the extractors see it: `None` for NA, the text, or the `TypeError` of `re.search`. */
  function InfoText(v: Value): (r: Result<Option<string>, Exc>)
    ensures r.Ok? <==> IsNa(v) || v.VStr?
  {
    if IsNa(v) then Ok(None)
    else if v.VStr? then Ok(Some(v.s))
    else Err(TypeError("expected string or bytes-like object, got '" + TypeName(v) + "'"))
  }

  function AsCell(o: Option<string>): Value {
    match o
    case None => VNone
    case Some(s) => VStr(s)
  }

  predicate AllReadable(infos: seq<Value>) {
    forall k :: 0 <= k < |infos| ==> InfoText(infos[k]).Ok?
  }

  /** The values one extractor gives for a column of INFO cells, all readable. */
  function Extracted(f: Field, infos: seq<Value>): (r: seq<Value>)
    requires AllReadable(infos)
    ensures |r| == |infos|
  {
    seq(|infos|, k requires 0 <= k < |infos| => AsCell(Extract(f, InfoText(infos[k]).value)))
  }

  function FirstUnreadable(infos: seq<Value>): (k: nat)
    requires !AllReadable(infos)
    ensures k < |infos| && InfoText(infos[k]).Err?
    ensures forall j :: 0 <= j < k ==> InfoText(infos[j]).Ok?
  {
    if InfoText(infos[0]).Err? then 0 else 1 + FirstUnreadable(infos[1..])
  }

  /** `df["INFO"].apply(extractor)`: the extracted column, or the error of the first unreadable cell. */
  function ApplyExtractor(f: Field, infos: seq<Value>): (r: Result<seq<Value>, Exc>)
    ensures r.Ok? <==> AllReadable(infos)
    ensures r.Ok? ==> r.value == Extracted(f, infos)
    ensures r.Err? ==> r.error == InfoText(infos[FirstUnreadable(infos)]).error
  {
    if AllReadable(infos) then Ok(Extracted(f, infos))
    else Err(InfoText(infos[FirstUnreadable(infos)]).error)
  }

  /** The table after the columns of `fields` have been assigned, one after the other. */
  function Assigned(t: Table, infos: seq<Value>, fields: seq<Field>): (r: Table)
    requires WellFormed(t) && |infos| == |t.rows| && AllReadable(infos)
    ensures WellFormed(r) && |r.rows| == |t.rows|
    ensures forall c :: c in t.columns ==> c in r.columns
    ensures forall f :: f in fields ==> ColumnName(f) in r.columns
    decreases |fields|
  {
    if fields == [] then t
    else
      var init := fields[..|fields| - 1];
      var last := fields[|fields| - 1];
      assert forall f :: f in fields ==> f in init || f == last;
      WithColumn(Assigned(t, infos, init), ColumnName(last), Extracted(last, infos))
  }

  /** The names among `fields` that `columns` lacks, in order, without repeats. */
  function Added(columns: seq<string>, fields: seq<Field>): seq<string>
    decreases |fields|
  {
    if fields == [] then []
    else
      var before := Added(columns, fields[..|fields| - 1]);
      var name := ColumnName(fields[|fields| - 1]);
      if name in columns || name in before then before else before + [name]
  }

  predicate DistinctFields(fields: seq<Field>) {
    forall i, j :: 0 <= i < j < |fields| ==> fields[i] != fields[j]
  }

  /** The header after assigning `fields`: the names it lacked are appended, in order. */
  lemma {:induction false} AssignedColumns(t: Table, infos: seq<Value>, fields: seq<Field>)
    requires WellFormed(t) && |infos| == |t.rows| && AllReadable(infos)
    ensures Assigned(t, infos, fields).columns == t.columns + Added(t.columns, fields)
    decreases |fields|
  {
    if fields != [] {
      var init := fields[..|fields| - 1];
      AssignedColumns(t, infos, init);
      var name := ColumnName(fields[|fields| - 1]);
      var before := Assigned(t, infos, init);
      assert name in before.columns <==> name in t.columns || name in Added(t.columns, init);
    }
  }

  /** After assigning `fields`, row `k` holds, under each assigned name, the extraction from its INFO cell. */
  lemma {:induction false} AssignedDerived(t: Table, infos: seq<Value>, fields: seq<Field>, k: nat, f: Field)
    requires WellFormed(t) && |infos| == |t.rows| && AllReadable(infos)
    requires DistinctFields(fields) && k < |t.rows| && f in fields
    ensures Cell(Assigned(t, infos, fields), k, ColumnName(f)) == AsCell(Extract(f, InfoText(infos[k]).value))
    decreases |fields|
  {
    var init := fields[..|fields| - 1];
    var last := fields[|fields| - 1];
    if f != last {
      assert f in init by {
        var i :| 0 <= i < |fields| && fields[i] == f;
        assert i < |fields| - 1;
        assert init[i] == f;
      }
      assert DistinctFields(init);
      AssignedDerived(t, infos, init, k, f);
      NamesDiffer(f, last);
    }
  }

  /** Assigning `fields` keeps every cell whose column is not one of their names. */
  lemma {:induction false} AssignedKept(t: Table, infos: seq<Value>, fields: seq<Field>, k: nat, c: string)
    requires WellFormed(t) && |infos| == |t.rows| && AllReadable(infos)
    requires k < |t.rows| && c in t.columns && forall f :: f in fields ==> c != ColumnName(f)
    ensures Cell(Assigned(t, infos, fields), k, c) == Cell(t, k, c)
    decreases |fields|
  {
    if fields != [] {
      var init := fields[..|fields| - 1];
      assert forall f :: f in init ==> f in fields;
      AssignedKept(t, infos, init, k, c);
      assert c != ColumnName(fields[|fields| - 1]);
    }
  }

  lemma EnrichOrderDistinct()
    ensures DistinctFields(EnrichOrder)
  {
  }

  lemma NamesDiffer(f: Field, g: Field)
    requires f != g
    ensures ColumnName(f) != ColumnName(g)
  {
  }

  /** The seven derived columns never include INFO. */
  lemma InfoNotDerived(f: Field)
    ensures ColumnName(f) != "INFO"
  {
  }

  /**
   * `enrich_clinvar_df` on a frame value: `KeyError` without an INFO column, the
   * `TypeError` of the first INFO cell that is neither NA nor text, otherwise the frame
   * with the seven columns assigned.
   */
  function Enriched(t: Table): (r: Result<Table, Exc>)
    requires WellFormed(t)
  {
    match Column(t, "INFO")
    case Err(e) => Err(e)
    case Ok(infos) =>
      if AllReadable(infos) then Ok(Assigned(t, infos, EnrichOrder))
      else Err(InfoText(infos[FirstUnreadable(infos)]).error)
  }

  /**
   * `enrich_clinvar_df` (clinvar_parser.py:46-54): the seven columns are computed row by
   * row from that row's INFO cell alone and assigned in the order GENE, CLNSIG, DISEASE,
   * RS, CLNVC, CLNHGVS, CLNREVSTAT; the first failure stops it before anything is
   * assigned, and then the frame is untouched.
   */
  method EnrichClinvarDf(df: Frame) returns (err: Option<Exc>)
    requires df.Valid()
    modifies df
    ensures df.Valid()
    ensures err.Some? <==> Enriched(old(df.Snapshot())).Err?
    ensures err.Some? ==> err.value == Enriched(old(df.Snapshot())).error
                          && df.Snapshot() == old(df.Snapshot())
    ensures err.None? ==> df.Snapshot() == Enriched(old(df.Snapshot())).value
  {
    ghost var t0 := df.Snapshot();
    var i := 0;
    // One pass of `df[name] = df["INFO"].apply(extract_name)` per line of the source;
    // the same INFO column is read each time, since no derived name is INFO.
    while i < |EnrichOrder|
      invariant 0 <= i <= |EnrichOrder|
      invariant df.Valid() && |df.rows| == |t0.rows|
      invariant i == 0 ==> df.Snapshot() == t0
      invariant i > 0 ==> Column(t0, "INFO").Ok? && AllReadable(Column(t0, "INFO").value)
                          && df.Snapshot() == Assigned(t0, Column(t0, "INFO").value, EnrichOrder[..i])
      invariant i > 0 ==> "INFO" in df.columns && Column(df.Snapshot(), "INFO") == Column(t0, "INFO")
    {
      var f := EnrichOrder[i];
      var infos := Column(df.Snapshot(), "INFO");
      if infos.Err? {
        return Some(infos.error);
      }
      var col := ApplyExtractor(f, infos.value);
      if col.Err? {
        return Some(col.error);
      }
      ghost var before := df.Snapshot();
      df.Assign(ColumnName(f), col.value);
      InfoNotDerived(f);
      ColumnUnchanged(before, ColumnName(f), col.value, "INFO");
      AssignedStep(t0, infos.value, EnrichOrder, i);
      i := i + 1;
    }
    assert EnrichOrder[..|EnrichOrder|] == EnrichOrder;
    err := None;
  }

  lemma AssignedStep(t: Table, infos: seq<Value>, fields: seq<Field>, i: nat)
    requires WellFormed(t) && |infos| == |t.rows| && AllReadable(infos) && i < |fields|
    ensures Assigned(t, infos, fields[..i + 1])
            == WithColumn(Assigned(t, infos, fields[..i]), ColumnName(fields[i]), Extracted(fields[i], infos))
  {
    assert fields[..i + 1][..i] == fields[..i];
  }

  lemma ColumnUnchanged(t: Table, name: string, values: seq<Value>, other: string)
    requires WellFormed(t) && |values| == |t.rows| && other in t.columns && other != name
    ensures Column(WithColumn(t, name, values), other) == Column(t, other)
  {
    var a := Column(WithColumn(t, name, values), other).value;
    var b := Column(t, other).value;
    assert |a| == |b|;
    assert forall k :: 0 <= k < |a| ==> a[k] == b[k];
    assert a == b;
  }

  /** `enrich_clinvar_df` keeps the row count and appends, at the right, the derived names the header lacked. */
  lemma EnrichedColumns(t: Table)
    requires WellFormed(t) && Enriched(t).Ok?
    ensures |Enriched(t).value.rows| == |t.rows|
    ensures Enriched(t).value.columns == t.columns + Added(t.columns, EnrichOrder)
  {
    AssignedColumns(t, Column(t, "INFO").value, EnrichOrder);
  }

  /** Each derived cell of row `k` is the extraction from row `k`'s own INFO cell. */
  lemma EnrichedDerived(t: Table, k: nat, f: Field)
    requires WellFormed(t) && Enriched(t).Ok? && k < |t.rows| && f in EnrichOrder
    ensures "INFO" in t.columns
    ensures Cell(Enriched(t).value, k, ColumnName(f)) == AsCell(Extract(f, InfoText(Cell(t, k, "INFO")).value))
  {
    var infos := Column(t, "INFO").value;
    assert infos[k] == Cell(t, k, "INFO");
    assert Enriched(t).value == Assigned(t, infos, EnrichOrder);
    EnrichOrderDistinct();
    AssignedDerived(t, infos, EnrichOrder, k, f);
  }

  /** Every cell outside the seven derived columns is what it was. */
  lemma EnrichedKept(t: Table, k: nat, c: string)
    requires WellFormed(t) && Enriched(t).Ok? && k < |t.rows| && c in t.columns
    requires forall f :: f in EnrichOrder ==> c != ColumnName(f)
    ensures Cell(Enriched(t).value, k, c) == Cell(t, k, c)
  {
    AssignedKept(t, Column(t, "INFO").value, EnrichOrder, k, c);
  }

  /** On a header without any of the names, `Added` is just the names of `fields`. */
  lemma {:induction false} AddedFresh(columns: seq<string>, fields: seq<Field>)
    requires DistinctFields(fields)
    requires forall f :: f in fields ==> ColumnName(f) !in columns
    ensures Added(columns, fields) == seq(|fields|, i requires 0 <= i < |fields| => ColumnName(fields[i]))
    decreases |fields|
  {
    if fields != [] {
      var init := fields[..|fields| - 1];
      var last := fields[|fields| - 1];
      assert forall f :: f in init ==> f in fields;
      assert DistinctFields(init);
      AddedFresh(columns, init);
      forall i | 0 <= i < |init| ensures ColumnName(init[i]) != ColumnName(last) {
        NamesDiffer(init[i], last);
      }
      var before := Added(columns, init);
      var name := ColumnName(last);
      assert name !in before;
      assert Added(columns, fields) == before + [name];
      var want := seq(|fields|, i requires 0 <= i < |fields| => ColumnName(fields[i]));
      assert forall i :: 0 <= i < |init| ==> want[i] == before[i];
      assert want == before + [name];
    }
  }

  /** On a frame without any derived column yet, the seven names are appended in order. */
  lemma AddedToFreshFrame(columns: seq<string>)
    requires forall f :: f in EnrichOrder ==> ColumnName(f) !in columns
    ensures Added(columns, EnrichOrder) == ["GENE", "CLNSIG", "DISEASE", "RS", "CLNVC", "CLNHGVS", "CLNREVSTAT"]
  {
    EnrichOrderDistinct();
    AddedFresh(columns, EnrichOrder);
  }
}
