/**
 * The dbSNP refsnp summariser (clinvar_api.py): every clinical assertion of every allele
 * annotation becomes one `"<significance> - <condition names>"` entry, and the entries
 * are joined into one line. The request is input (the outcome of the one
 * `requests.get`). Every failure is reported in the returned text, never raised.
 */
module ClinvarApi {
  import opened Wrappers
  import opened PyText
  import opened PyValues
  import opened Http

  const ErrorPrefix: string := "ClinVar API hatası: "
  const NotFound: string := "No clinical significance found."
  const EntrySeparator: string := " | "
  const NameSeparator: string := "; "

  /** `[c.get("preferred_name", "") for c in condition_list]`: the first failing `get` raises. */
  function ConditionNames(conditions: seq<Value>): (r: Result<seq<Value>, Exc>)
    ensures r.Ok? ==> |r.value| == |conditions|
  {
    if conditions == [] then Ok([])
    else
      match Get(conditions[0], "preferred_name", VStr(""))
      case Err(e) => Err(e)
      case Ok(name) =>
        match ConditionNames(conditions[1..])
        case Err(e) => Err(e)
        case Ok(rest) => Ok([name] + rest)
  }

  /** `assertion.get("clinical_significance", {}).get("description", "")` (clinvar_api.py:20). */
  function SignificanceOf(assertion: Value): Result<Value, Exc> {
    match Get(assertion, "clinical_significance", VDict([]))
    case Err(e) => Err(e)
    case Ok(significance) => Get(significance, "description", VStr(""))
  }

  /** The condition names of an assertion joined by `"; "` (clinvar_api.py:21-22). */
  function DiseasesOf(assertion: Value): Result<string, Exc> {
    match Get(assertion, "condition_list", VDict([]))
    case Err(e) => Err(e)
    case Ok(conditionList) =>
      match Get(conditionList, "conditions", VList([]))
      case Err(e) => Err(e)
      case Ok(conditions) =>
        match Iter(conditions)
        case Err(e) => Err(e)
        case Ok(items) =>
          match ConditionNames(items)
          case Err(e) => Err(e)
          case Ok(diseases) => JoinStrs(diseases, NameSeparator)
  }

  /** The entry of one clinical assertion (clinvar_api.py:20-23). */
  function AssertionEntry(assertion: Value): Result<string, Exc> {
    match SignificanceOf(assertion)
    case Err(e) => Err(e)
    case Ok(sig) =>
      match DiseasesOf(assertion)
      case Err(e) => Err(e)
      case Ok(names) => Ok(Str(sig) + " - " + names)
  }

  /** The entries of a run of assertions, in order; the first failure stops the run. */
  function AssertionEntries(assertions: seq<Value>): (r: Result<seq<string>, Exc>)
    ensures r.Ok? ==> |r.value| == |assertions|
    decreases |assertions|
  {
    if assertions == [] then Ok([])
    else
      match AssertionEntries(assertions[..|assertions| - 1])
      case Err(e) => Err(e)
      case Ok(acc) =>
        match AssertionEntry(assertions[|assertions| - 1])
        case Err(e) => Err(e)
        case Ok(entry) => Ok(acc + [entry])
  }

  /** The assertions of one annotation: none when `clinical` is missing or falsy (clinvar_api.py:16-19). */
  function AnnotationAssertions(ann: Value): Result<seq<Value>, Exc> {
    match Get(ann, "clinical", VNone)
    case Err(e) => Err(e)
    case Ok(clinical) =>
      if !Truthy(clinical) then Ok([])
      else
        match Get(clinical, "clinical_assertions", VList([]))
        case Err(e) => Err(e)
        case Ok(assertions) => Iter(assertions)
  }

  /** The entries of a run of annotations: annotation by annotation, assertion by assertion. */
  function AnnotationEntries(annotations: seq<Value>): Result<seq<string>, Exc>
    decreases |annotations|
  {
    if annotations == [] then Ok([])
    else
      match AnnotationEntries(annotations[..|annotations| - 1])
      case Err(e) => Err(e)
      case Ok(acc) =>
        match AnnotationAssertions(annotations[|annotations| - 1])
        case Err(e) => Err(e)
        case Ok(assertions) =>
          match AssertionEntries(assertions)
          case Err(e) => Err(e)
          case Ok(entries) => Ok(acc + entries)
  }

  /** The annotations of a decoded reply: `data["primary_snapshot_data"]["allele_annotations"]`. */
  function Annotations(data: Value): Result<seq<Value>, Exc> {
    match Item(data, "primary_snapshot_data")
    case Err(e) => Err(e)
    case Ok(snapshot) =>
      match Item(snapshot, "allele_annotations")
      case Err(e) => Err(e)
      case Ok(annotations) => Iter(annotations)
  }

  /** The line for a list of entries (clinvar_api.py:25). */
  function Summary(entries: seq<string>): string {
    if entries == [] then NotFound else Join(entries, EntrySeparator)
  }

  /** The text `get_clinvar_data` returns for a request outcome. */
  function ClinvarSummary(outcome: HttpOutcome): string {
    match outcome
    case Raised(m) => ErrorPrefix + Message(HttpError(m))
    case Response(status, _, _, body) =>
      if status != 200 then ErrorPrefix + IntToString(status)
      else
        match DecodeJson(body)
        case Err(e) => ErrorPrefix + Message(e)
        case Ok(data) =>
          match Annotations(data)
          case Err(e) => ErrorPrefix + Message(e)
          case Ok(annotations) =>
            match AnnotationEntries(annotations)
            case Err(e) => ErrorPrefix + Message(e)
            case Ok(entries) => Summary(entries)
  }

  /**
   * The loop over one annotation's assertions (clinvar_api.py:19-23): appends one entry
   * per assertion to `results`, or stops at the first failure.
   */
  method AppendAssertionEntries(results: seq<string>, assertions: seq<Value>) returns (r: Result<seq<string>, Exc>)
    ensures r == match AssertionEntries(assertions)
                 case Err(e) => Err(e)
                 case Ok(entries) => Ok(results + entries)
  {
    var acc := results;
    var j := 0;
    while j < |assertions|
      invariant 0 <= j <= |assertions|
      invariant AssertionEntries(assertions[..j]).Ok?
      invariant acc == results + AssertionEntries(assertions[..j]).value
    {
      var entry := AssertionEntry(assertions[j]);
      AssertionEntriesStep(assertions, j);
      if entry.Err? {
        AssertionEntriesStayFailed(assertions, j + 1);
        return Err(entry.error);
      }
      acc := acc + [entry.value];
      j := j + 1;
    }
    assert assertions[..j] == assertions;
    return Ok(acc);
  }

  /**
   * `get_clinvar_data` (clinvar_api.py:4-27): nested loops over annotations and their
   * assertions build `results`; a non-200 status, and every exception, becomes the
   * returned error text.
   */
  method GetClinvarData(outcome: HttpOutcome) returns (summary: string)
    ensures summary == ClinvarSummary(outcome)
  {
    if outcome.Raised? {
      return ErrorPrefix + Message(HttpError(outcome.message));
    }
    if outcome.status != 200 {
      return ErrorPrefix + IntToString(outcome.status);
    }
    var data := DecodeJson(outcome.body);
    if data.Err? {
      return ErrorPrefix + Message(data.error);
    }
    var annotations := Annotations(data.value);
    if annotations.Err? {
      return ErrorPrefix + Message(annotations.error);
    }
    var anns := annotations.value;
    var results: seq<string> := [];
    var i := 0;
    while i < |anns|
      invariant 0 <= i <= |anns|
      invariant AnnotationEntries(anns[..i]) == Ok(results)
    {
      assert anns[..i + 1][..i] == anns[..i];
      var assertions := AnnotationAssertions(anns[i]);
      if assertions.Err? {
        AnnotationEntriesStayFailed(anns, i + 1);
        return ErrorPrefix + Message(assertions.error);
      }
      var extended := AppendAssertionEntries(results, assertions.value);
      if extended.Err? {
        AnnotationEntriesStayFailed(anns, i + 1);
        return ErrorPrefix + Message(extended.error);
      }
      results := extended.value;
      i := i + 1;
    }
    assert anns[..i] == anns;
    summary := if results != [] then Join(results, EntrySeparator) else NotFound;
  }

  /** Once an assertion has failed, the later ones cannot undo it. */
  lemma {:induction false} AssertionEntriesStayFailed(assertions: seq<Value>, j: nat)
    requires j <= |assertions| && AssertionEntries(assertions[..j]).Err?
    ensures AssertionEntries(assertions) == AssertionEntries(assertions[..j])
    decreases |assertions| - j
  {
    if j < |assertions| {
      assert assertions[..j + 1][..j] == assertions[..j];
      AssertionEntriesStayFailed(assertions, j + 1);
    } else {
      assert assertions[..j] == assertions;
    }
  }

  /** One more assertion read: its entry is appended, or its failure is the result. */
  lemma AssertionEntriesStep(assertions: seq<Value>, j: nat)
    requires j < |assertions| && AssertionEntries(assertions[..j]).Ok?
    ensures AssertionEntries(assertions[..j + 1])
            == match AssertionEntry(assertions[j])
               case Err(e) => Err(e)
               case Ok(entry) => Ok(AssertionEntries(assertions[..j]).value + [entry])
  {
    assert assertions[..j + 1][..j] == assertions[..j];
  }

  /** Once an annotation has failed, the later ones cannot undo it. */
  lemma {:induction false} AnnotationEntriesStayFailed(annotations: seq<Value>, i: nat)
    requires i <= |annotations| && AnnotationEntries(annotations[..i]).Err?
    ensures AnnotationEntries(annotations) == AnnotationEntries(annotations[..i])
    decreases |annotations| - i
  {
    if i < |annotations| {
      assert annotations[..i + 1][..i] == annotations[..i];
      AnnotationEntriesStayFailed(annotations, i + 1);
    } else {
      assert annotations[..i] == annotations;
    }
  }

  /** A status other than 200 gives the error text with the status, which reads back as that status. */
  lemma StatusError(status: int, reason: string, url: string, body: Body)
    requires status != 200
    ensures ClinvarSummary(Response(status, reason, url, body)) == ErrorPrefix + IntToString(status)
    ensures ParseInt(ClinvarSummary(Response(status, reason, url, body))[|ErrorPrefix|..]) == Some(status)
  {
    var s := ClinvarSummary(Response(status, reason, url, body));
    assert s[|ErrorPrefix|..] == IntToString(status);
    ParseIntOfIntToString(status);
  }

  /** A reply without `primary_snapshot_data` reports the missing key, as `str(KeyError)` writes it. */
  lemma MissingSnapshot(reason: string, url: string, es: seq<(string, Value)>)
    requires Lookup(es, "primary_snapshot_data") == None
    ensures ClinvarSummary(Response(200, reason, url, JsonBody(VDict(es))))
            == ErrorPrefix + "'primary_snapshot_data'"
  {
    MissingKeyText();
    assert Annotations(VDict(es)) == Err(KeyError(VStr("primary_snapshot_data")));
  }

  lemma MissingKeyText()
    ensures Message(KeyError(VStr("primary_snapshot_data"))) == "'primary_snapshot_data'"
  {
    SnapshotKeyPlain();
    KeyErrorPlain("primary_snapshot_data");
    QuotedSnapshotKey();
  }

  lemma SnapshotKeyPlain()
    ensures PlainText("primary_snapshot_data")
  {
  }

  lemma QuotedSnapshotKey()
    ensures "'" + "primary_snapshot_data" + "'" == "'primary_snapshot_data'"
  {
  }

  /** An annotation whose `clinical` is missing or falsy contributes no entry. */
  lemma NonClinicalAnnotation(ann: Value)
    requires ann.VDict? && !Truthy(match Lookup(ann.entries, "clinical") case Some(c) => c case None => VNone)
    ensures AnnotationAssertions(ann) == Ok([])
  {
  }

  /** Both runs succeeded: their entries one after the other; otherwise the first failure. */
  function Then(x: Result<seq<string>, Exc>, y: Result<seq<string>, Exc>): Result<seq<string>, Exc> {
    match x
    case Err(e) => Err(e)
    case Ok(a) =>
      match y
      case Err(e) => Err(e)
      case Ok(b) => Ok(a + b)
  }

  lemma ThenAssociative(x: Result<seq<string>, Exc>, y: Result<seq<string>, Exc>, z: Result<seq<string>, Exc>)
    ensures Then(Then(x, y), z) == Then(x, Then(y, z))
  {
    if x.Ok? && y.Ok? && z.Ok? {
      assert x.value + y.value + z.value == x.value + (y.value + z.value);
    }
  }

  /** The entries of one annotation. */
  function OneAnnotation(ann: Value): Result<seq<string>, Exc> {
    match AnnotationAssertions(ann)
    case Err(e) => Err(e)
    case Ok(assertions) => AssertionEntries(assertions)
  }

  /**
   * Entries are ordered by annotation, then by assertion: the entries of `a + b` are
   * those of `a` followed by those of `b`, and the first failure wins.
   */
  lemma {:induction false} AnnotationEntriesAppend(a: seq<Value>, b: seq<Value>)
    ensures AnnotationEntries(a + b) == Then(AnnotationEntries(a), AnnotationEntries(b))
    decreases |b|
  {
    if b == [] {
      assert a + b == a;
      if AnnotationEntries(a).Ok? {
        assert AnnotationEntries(a).value + [] == AnnotationEntries(a).value;
      }
    } else {
      var init := b[..|b| - 1];
      var last := b[|b| - 1];
      assert (a + b)[..|a + b| - 1] == a + init;
      assert (a + b)[|a + b| - 1] == last;
      AnnotationEntriesAppend(a, init);
      assert AnnotationEntries(a + b) == Then(AnnotationEntries(a + init), OneAnnotation(last));
      assert AnnotationEntries(b) == Then(AnnotationEntries(init), OneAnnotation(last));
      ThenAssociative(AnnotationEntries(a), AnnotationEntries(init), OneAnnotation(last));
    }
  }

  /** The assertion entries of `a + b` are those of `a` followed by those of `b`. */
  lemma {:induction false} AssertionEntriesAppend(a: seq<Value>, b: seq<Value>)
    ensures AssertionEntries(a + b) == Then(AssertionEntries(a), AssertionEntries(b))
    decreases |b|
  {
    if b == [] {
      assert a + b == a;
      if AssertionEntries(a).Ok? {
        assert AssertionEntries(a).value + [] == AssertionEntries(a).value;
      }
    } else {
      var init := b[..|b| - 1];
      var last := b[|b| - 1];
      assert (a + b)[..|a + b| - 1] == a + init;
      assert (a + b)[|a + b| - 1] == last;
      AssertionEntriesAppend(a, init);
      var one := match AssertionEntry(last) case Err(e) => Err(e) case Ok(x) => Ok([x]);
      assert AssertionEntries(a + b) == Then(AssertionEntries(a + init), one);
      assert AssertionEntries(b) == Then(AssertionEntries(init), one);
      ThenAssociative(AssertionEntries(a), AssertionEntries(init), one);
    }
  }

  /** A condition as dbSNP writes it: an object whose `preferred_name` is text or absent. */
  predicate GoodCondition(c: Value) {
    c.VDict? && match Lookup(c.entries, "preferred_name") case Some(n) => n.VStr? case None => true
  }

  /** The name of a good condition, `""` when it has none. */
  function ConditionName(c: Value): string
    requires GoodCondition(c)
  {
    match Lookup(c.entries, "preferred_name") case Some(n) => n.s case None => ""
  }

  /** The names of good conditions, in order. */
  function NamesOf(cs: seq<Value>): (names: seq<string>)
    requires forall k :: 0 <= k < |cs| ==> GoodCondition(cs[k])
    ensures |names| == |cs| && forall k :: 0 <= k < |cs| ==> names[k] == ConditionName(cs[k])
  {
    seq(|cs|, k requires 0 <= k < |cs| => ConditionName(cs[k]))
  }

  /** `d.get(key, {})` for a nested object that is absent or an object. */
  function ObjectAt(entries: seq<(string, Value)>, key: string): seq<(string, Value)> {
    match Lookup(entries, key) case Some(VDict(es)) => es case _ => []
  }

  /**
   * An assertion as dbSNP writes it: `clinical_significance` absent or an object whose
   * `description` is absent or text; `condition_list` absent or an object whose
   * `conditions` is absent or a list of good conditions.
   */
  predicate GoodAssertion(a: Value) {
    && a.VDict?
    && (match Lookup(a.entries, "clinical_significance") case Some(s) => s.VDict? case None => true)
    && (match Lookup(ObjectAt(a.entries, "clinical_significance"), "description")
        case Some(d) => d.VStr? case None => true)
    && (match Lookup(a.entries, "condition_list") case Some(l) => l.VDict? case None => true)
    && (match Lookup(ObjectAt(a.entries, "condition_list"), "conditions")
        case Some(VList(cs)) => forall k :: 0 <= k < |cs| ==> GoodCondition(cs[k])
        case Some(_) => false
        case None => true)
  }

  /** The conditions of a good assertion. */
  function Conditions(a: Value): (cs: seq<Value>)
    requires GoodAssertion(a)
    ensures forall k :: 0 <= k < |cs| ==> GoodCondition(cs[k])
  {
    match Lookup(ObjectAt(a.entries, "condition_list"), "conditions") case Some(VList(cs)) => cs case _ => []
  }

  /** The significance text of a good assertion, `""` when it has none. */
  function Significance(a: Value): string
    requires GoodAssertion(a)
  {
    match Lookup(ObjectAt(a.entries, "clinical_significance"), "description") case Some(VStr(d)) => d case _ => ""
  }

  lemma {:induction false} GoodConditionNames(cs: seq<Value>)
    requires forall k :: 0 <= k < |cs| ==> GoodCondition(cs[k])
    ensures ConditionNames(cs).Ok? && AllStr(ConditionNames(cs).value)
    ensures Texts(ConditionNames(cs).value) == NamesOf(cs)
  {
    if cs != [] {
      assert forall k :: 0 <= k < |cs| - 1 ==> cs[1..][k] == cs[k + 1];
      GoodConditionNames(cs[1..]);
    }
  }

  /**
   * A good assertion gives exactly one entry, its significance, `" - "`, and its condition
   * names joined by `"; "`, with `""` for whatever is missing.
   */
  lemma GoodAssertionEntry(a: Value)
    requires GoodAssertion(a)
    ensures AssertionEntry(a) == Ok(Significance(a) + " - "
              + Join(NamesOf(Conditions(a)), NameSeparator))
  {
    GoodSignificance(a);
    GoodDiseases(a);
  }

  lemma GoodSignificance(a: Value)
    requires GoodAssertion(a)
    ensures SignificanceOf(a).Ok? && Str(SignificanceOf(a).value) == Significance(a)
  {
    assert Get(a, "clinical_significance", VDict([])) == Ok(VDict(ObjectAt(a.entries, "clinical_significance")));
  }

  lemma GoodDiseases(a: Value)
    requires GoodAssertion(a)
    ensures DiseasesOf(a)
            == Ok(Join(NamesOf(Conditions(a)), NameSeparator))
  {
    var cs := Conditions(a);
    GoodConditionNames(cs);
    var listObj := Get(a, "condition_list", VDict([]));
    assert listObj == Ok(VDict(ObjectAt(a.entries, "condition_list")));
    assert Get(listObj.value, "conditions", VList([])) == Ok(VList(cs));
    assert Iter(VList(cs)) == Ok(cs);
    var names := ConditionNames(cs).value;
    assert DiseasesOf(a) == JoinStrs(names, NameSeparator);
  }

  /** An assertion with an empty condition list gives `"<significance> - "`. */
  lemma NoConditions(a: Value)
    requires GoodAssertion(a) && Conditions(a) == []
    ensures AssertionEntry(a) == Ok(Significance(a) + " - ")
  {
    GoodAssertionEntry(a);
    var names: seq<string> := [];
    assert NamesOf(Conditions(a)) == names;
    assert Join(names, NameSeparator) == "";
    assert Significance(a) + " - " + "" == Significance(a) + " - ";
  }

  /** A reply whose annotations all succeed gives their entries joined by `" | "`, or the not-found text. */
  lemma SummaryOfEntries(reason: string, url: string, data: Value)
    requires Annotations(data).Ok? && AnnotationEntries(Annotations(data).value).Ok?
    ensures var entries := AnnotationEntries(Annotations(data).value).value;
            ClinvarSummary(Response(200, reason, url, JsonBody(data)))
            == if entries == [] then NotFound else Join(entries, EntrySeparator)
  {
  }

  /** Any failure on the way is reported as the error prefix and `str(e)`. */
  lemma FailureText(reason: string, url: string, data: Value)
    requires Annotations(data).Err?
    ensures ClinvarSummary(Response(200, reason, url, JsonBody(data)))
            == ErrorPrefix + Message(Annotations(data).error)
  {
  }
}
