/**
 * The gnomAD frequency lookup (gnomad_handler.py): the `chrom-pos-ref-alt` variant id
 * and the mapping of a GraphQL reply to a result record. The request is input (the
 * outcome of the one `requests.post`); the query text and the debug prints are not
 * modelled. The file never imports `requests`, so as written the call raises
 * `NameError` before any request is made; `GnomadAsWritten` is that behaviour and
 * `GetGnomadFrequencies` the evidently intended one.
 */
module GnomadHandler {
  import opened Wrappers
  import opened PyText
  import opened PyValues
  import opened Http

  /** `f"{chrom}-{pos}-{ref}-{alt}"`. */
  function VariantId(chrom: Value, pos: Value, ref: Value, alt: Value): (id: string)
    ensures id == Join([Str(chrom), Str(pos), Str(ref), Str(alt)], "-")
  {
    var parts := [Str(chrom), Str(pos), Str(ref), Str(alt)];
    assert parts[1..] == [Str(pos), Str(ref), Str(alt)];
    assert parts[1..][1..] == [Str(ref), Str(alt)];
    assert parts[1..][1..][1..] == [Str(alt)];
    assert Join(parts[1..][1..], "-") == Str(ref) + "-" + Str(alt);
    assert Join(parts[1..], "-") == Str(pos) + "-" + Str(ref) + "-" + Str(alt);
    Str(chrom) + "-" + Str(pos) + "-" + Str(ref) + "-" + Str(alt)
  }

  /** When no part holds a `-`, the variant id splits back into its four parts. */
  lemma VariantIdSplits(chrom: Value, pos: Value, ref: Value, alt: Value)
    requires '-' !in Str(chrom) && '-' !in Str(pos) && '-' !in Str(ref) && '-' !in Str(alt)
    ensures Split(VariantId(chrom, pos, ref, alt), '-') == [Str(chrom), Str(pos), Str(ref), Str(alt)]
  {
    var parts := [Str(chrom), Str(pos), Str(ref), Str(alt)];
    SplitJoin(parts, '-');
  }

  /** The three entries every record starts with, in insertion order. */
  function RecordBase(variantId: string, genomeAf: Value, exomeAf: Value): (base: seq<(string, Value)>)
    ensures Lookup(base, "variant_id") == Some(VStr(variantId))
    ensures Lookup(base, "gnomad_genome_af") == Some(genomeAf)
    ensures Lookup(base, "gnomad_exome_af") == Some(exomeAf)
    ensures Lookup(base, "error") == None
  {
    var b1 := PutEntry([], "variant_id", VStr(variantId));
    assert "gnomad_genome_af"[0] != "variant_id"[0];
    var b2 := PutEntry(b1, "gnomad_genome_af", genomeAf);
    assert "gnomad_exome_af"[0] != "variant_id"[0] && "gnomad_exome_af"[7] != "gnomad_genome_af"[7];
    assert "error"[0] != "variant_id"[0] && "error"[0] != "gnomad_genome_af"[0] && "error"[0] != "gnomad_exome_af"[0];
    assert Lookup(b1, "error") == None;
    PutEntry(b2, "gnomad_exome_af", exomeAf)
  }

  /** The record every path returns: the id, both allele frequencies, and `error` only when given. */
  function GnomadRecord(variantId: string, genomeAf: Value, exomeAf: Value, error: Option<Value>): (r: Value)
    ensures r.VDict?
    ensures Lookup(r.entries, "variant_id") == Some(VStr(variantId))
    ensures Lookup(r.entries, "gnomad_genome_af") == Some(genomeAf)
    ensures Lookup(r.entries, "gnomad_exome_af") == Some(exomeAf)
    ensures Lookup(r.entries, "error") == error
  {
    var base := RecordBase(variantId, genomeAf, exomeAf);
    if error.None? then VDict(base)
    else
      ErrorKeyDistinct();
      VDict(PutEntry(base, "error", error.value))
  }

  lemma ErrorKeyDistinct()
    ensures "error" != "variant_id" && "error" != "gnomad_genome_af" && "error" != "gnomad_exome_af"
  {
    assert "error"[0] != "variant_id"[0] && "error"[0] != "gnomad_genome_af"[0] && "error"[0] != "gnomad_exome_af"[0];
  }

  /** The record of the `except Exception as e` path: no frequencies, `error = str(e)`. */
  function FailureRecord(variantId: string, e: Exc): Value {
    GnomadRecord(variantId, VNone, VNone, Some(VStr(Message(e))))
  }

  /** `d.get(key) or {}`. */
  function OrEmpty(v: Value): Value {
    if Truthy(v) then v else VDict([])
  }

  /** The two allele frequencies of a reply without `errors` (gnomad_handler.py:42-44, 48-49). */
  function Frequencies(json: Value): (r: Result<(Value, Value), Exc>)
  {
    match Get(json, "data", VDict([]))
    case Err(e) => Err(e)
    case Ok(data) =>
      match Get(data, "variant", VDict([]))
      case Err(e) => Err(e)
      case Ok(variant) =>
        match Get(variant, "genome", VNone)
        case Err(e) => Err(e)
        case Ok(g) =>
          match Get(variant, "exome", VNone)
          case Err(e) => Err(e)
          case Ok(x) =>
            match Get(OrEmpty(g), "af", VNone)
            case Err(e) => Err(e)
            case Ok(genomeAf) =>
              match Get(OrEmpty(x), "af", VNone)
              case Err(e) => Err(e)
              case Ok(exomeAf) => Ok((genomeAf, exomeAf))
  }

  /** What the function gives for a decoded reply (gnomad_handler.py:34-50 and the `except` path). */
  function FromReply(variantId: string, json: Value): Value {
    match Contains(json, "errors")
    case Err(e) => FailureRecord(variantId, e)
    case Ok(has) =>
      if has then
        match Item(json, "errors")
        case Err(e) => FailureRecord(variantId, e)
        case Ok(errors) => GnomadRecord(variantId, VNone, VNone, Some(errors))
      else
        match Frequencies(json)
        case Err(e) => FailureRecord(variantId, e)
        case Ok(afs) => GnomadRecord(variantId, afs.0, afs.1, None)
  }

  /**
   * `get_gnomad_frequencies` with its request made: every path returns a record holding
   * the variant id; a request failure, an error status or an undecodable body gives
   * `error = str(e)` and no frequencies.
   */
  function GetGnomadFrequencies(chrom: Value, pos: Value, ref: Value, alt: Value, outcome: HttpOutcome): (r: Value)
    ensures r.VDict?
    ensures Lookup(r.entries, "variant_id") == Some(VStr(VariantId(chrom, pos, ref, alt)))
    ensures CheckedJson(outcome).Err? ==>
              r == FailureRecord(VariantId(chrom, pos, ref, alt), CheckedJson(outcome).error)
  {
    var id := VariantId(chrom, pos, ref, alt);
    match CheckedJson(outcome)
    case Err(e) => FailureRecord(id, e)
    case Ok(json) => FromReply(id, json)
  }

  /**
   * The function as the file is written: `requests` is not imported, so line 21 raises
   * `NameError`, which the `except` turns into the failure record whatever the network
   * would have said.
   */
  function GnomadAsWritten(chrom: Value, pos: Value, ref: Value, alt: Value): (r: Value)
    ensures r == FailureRecord(VariantId(chrom, pos, ref, alt), NameError("requests"))
    ensures Lookup(r.entries, "error") == Some(VStr("name 'requests' is not defined"))
    ensures Lookup(r.entries, "gnomad_genome_af") == Some(VNone)
  {
    assert Message(NameError("requests")) == "name 'requests' is not defined";
    FailureRecord(VariantId(chrom, pos, ref, alt), NameError("requests"))
  }

  /** A level of the reply as gnomAD sends it: absent, `null`, or an object. */
  predicate DictOrNull(o: Option<Value>) {
    o.None? || o == Some(VNone) || o.value.VDict?
  }

  /** The `af` of one level (`genome` or `exome`) of the variant, or `None` when that level is absent or null. */
  function LevelAf(variant: seq<(string, Value)>, level: string): Value {
    match Lookup(variant, level)
    case Some(VDict(g)) => (match Lookup(g, "af") case Some(af) => af case None => VNone)
    case _ => VNone
  }

  /**
   * The success path: a reply without `errors` whose `data.variant` is an object and whose
   * `genome` and `exome` are objects, null or absent gives a record without `error` whose
   * frequencies are the two `af` values, `None` where a level or its `af` is missing.
   */
  lemma SuccessReply(id: string, es: seq<(string, Value)>, data: seq<(string, Value)>, variant: seq<(string, Value)>)
    requires Lookup(es, "errors") == None
    requires Lookup(es, "data") == Some(VDict(data)) && Lookup(data, "variant") == Some(VDict(variant))
    requires DictOrNull(Lookup(variant, "genome")) && DictOrNull(Lookup(variant, "exome"))
    ensures var r := FromReply(id, VDict(es));
            && Lookup(r.entries, "error") == None
            && Lookup(r.entries, "gnomad_genome_af") == Some(LevelAf(variant, "genome"))
            && Lookup(r.entries, "gnomad_exome_af") == Some(LevelAf(variant, "exome"))
  {
    assert Contains(VDict(es), "errors") == Ok(false);
    assert Get(VDict(es), "data", VDict([])) == Ok(VDict(data));
    assert Get(VDict(data), "variant", VDict([])) == Ok(VDict(variant));
    LevelAfOfReply(variant, "genome");
    LevelAfOfReply(variant, "exome");
    assert Frequencies(VDict(es)) == Ok((LevelAf(variant, "genome"), LevelAf(variant, "exome")));
  }

  /** `(variant.get(level) or {}).get("af")` on a level that is an object, null or absent. */
  lemma LevelAfOfReply(variant: seq<(string, Value)>, level: string)
    requires DictOrNull(Lookup(variant, level))
    ensures Get(VDict(variant), level, VNone).Ok?
    ensures Get(OrEmpty(Get(VDict(variant), level, VNone).value), "af", VNone) == Ok(LevelAf(variant, level))
  {
  }

  /** A reply without `errors` and without `data` is a success with both frequencies `None`. */
  lemma NoDataReply(id: string, es: seq<(string, Value)>)
    requires Lookup(es, "errors") == None && Lookup(es, "data") == None
    ensures FromReply(id, VDict(es)) == GnomadRecord(id, VNone, VNone, None)
  {
    assert Contains(VDict(es), "errors") == Ok(false);
    assert Get(VDict(es), "data", VDict([])) == Ok(VDict([]));
    assert Get(VDict([]), "variant", VDict([])) == Ok(VDict([]));
    LevelAfOfReply([], "genome");
    LevelAfOfReply([], "exome");
    assert Frequencies(VDict(es)) == Ok((VNone, VNone));
  }

  /** A reply dict with `errors`: no frequencies, and `error` is that errors value. */
  lemma ErrorsReply(id: string, es: seq<(string, Value)>)
    requires Lookup(es, "errors").Some?
    ensures FromReply(id, VDict(es)) == GnomadRecord(id, VNone, VNone, Lookup(es, "errors"))
  {
  }

  /** `str()` of the `AttributeError` from `None.get`. */
  lemma NoneHasNoGet()
    ensures Message(NoAttribute(VNone, "get")) == "'NoneType' object has no attribute 'get'"
  {
    var name := TypeName(VNone);
    assert name == "NoneType";
    assert Message(NoAttribute(VNone, "get")) == "'" + name + "' object has no attribute '" + "get" + "'";
    NoneGetText();
  }

  lemma NoneGetText()
    ensures "'" + "NoneType" + "' object has no attribute '" + "get" + "'" == "'NoneType' object has no attribute 'get'"
  {
  }

  /**
   * A reply without `errors` whose `data` is null makes `.get` run on `None`: the
   * exception path, not a success with empty frequencies. The same holds for a null
   * `data.variant`.
   */
  lemma NullDataIsFailure(id: string, es: seq<(string, Value)>)
    requires Lookup(es, "errors") == None && Lookup(es, "data") == Some(VNone)
    ensures Lookup(FromReply(id, VDict(es)).entries, "error") == Some(VStr("'NoneType' object has no attribute 'get'"))
  {
    var e := NoAttribute(VNone, "get");
    NoneHasNoGet();
    assert Contains(VDict(es), "errors") == Ok(false);
    assert Frequencies(VDict(es)) == Err(e);
    assert FromReply(id, VDict(es)) == FailureRecord(id, e);
  }

  lemma NullVariantIsFailure(id: string, es: seq<(string, Value)>, data: seq<(string, Value)>)
    requires Lookup(es, "errors") == None && Lookup(es, "data") == Some(VDict(data))
    requires Lookup(data, "variant") == Some(VNone)
    ensures Lookup(FromReply(id, VDict(es)).entries, "error") == Some(VStr("'NoneType' object has no attribute 'get'"))
  {
    var e := NoAttribute(VNone, "get");
    NoneHasNoGet();
    assert Contains(VDict(es), "errors") == Ok(false);
    assert Frequencies(VDict(es)) == Err(e);
    assert FromReply(id, VDict(es)) == FailureRecord(id, e);
  }

  /**
   * As written, a reply that carries a genome frequency never reaches the caller: the
   * record says `None`, where the function with its import gives that frequency.
   */
  lemma AsWrittenLosesFrequencies(chrom: Value, pos: Value, ref: Value, alt: Value, outcome: HttpOutcome,
                                  es: seq<(string, Value)>, data: seq<(string, Value)>, variant: seq<(string, Value)>)
    requires CheckedJson(outcome) == Ok(VDict(es))
    requires Lookup(es, "errors") == None
    requires Lookup(es, "data") == Some(VDict(data)) && Lookup(data, "variant") == Some(VDict(variant))
    requires DictOrNull(Lookup(variant, "genome")) && DictOrNull(Lookup(variant, "exome"))
    requires LevelAf(variant, "genome") != VNone
    ensures Lookup(GetGnomadFrequencies(chrom, pos, ref, alt, outcome).entries, "gnomad_genome_af")
            == Some(LevelAf(variant, "genome"))
    ensures Lookup(GnomadAsWritten(chrom, pos, ref, alt).entries, "gnomad_genome_af")
            != Some(LevelAf(variant, "genome"))
  {
    SuccessReply(VariantId(chrom, pos, ref, alt), es, data, variant);
  }
}
