/**
 * The NCBI ELink reply decoder and the PubMed link builder (pubmed_handler.py). The
 * request itself is input: the handler receives the outcome of its one `requests.get`.
 * The walk consults the first linkset only and concatenates the `links` of every
 * linksetdb whose target is `pubmed`; any exception on the way gives `[]`.
 */
module PubmedHandler {
  import opened Wrappers
  import opened PyText
  import opened PyValues
  import opened Http

  /** What one linksetdb adds to the ids: its `links` when it targets pubmed; `None` when an access raises. */
  function DbLinks(db: Value): Option<seq<Value>> {
    match Item(db, "dbto")
    case Err(_) => None
    case Ok(target) =>
      if target == VStr("pubmed") then
        match Item(db, "links")
        case Err(_) => None
        case Ok(links) =>
          match Iter(links)
          case Err(_) => None
          case Ok(ids) => Some(ids)
      else Some([])
  }

  /** The ids the loop over `dbs` has collected, or `None` once an access has raised. */
  function Collected(dbs: seq<Value>): Option<seq<Value>>
    decreases |dbs|
  {
    if dbs == [] then Some([])
    else
      match Collected(dbs[..|dbs| - 1])
      case None => None
      case Some(acc) =>
        match DbLinks(dbs[|dbs| - 1])
        case None => None
        case Some(ids) => Some(acc + ids)
  }

  /** The linksetdbs of the first linkset: `Some([])` where the walk returns `[]` early, `None` when it raises. */
  function FirstLinksetDbs(data: Value): Option<seq<Value>> {
    match Get(data, "linksets", VList([]))
    case Err(_) => None
    case Ok(linksets) =>
      if !Truthy(linksets) then Some([])
      else
        match First(linksets)
        case Err(_) => None
        case Ok(first) =>
          match Contains(first, "linksetdbs")
          case Err(_) => None
          case Ok(has) =>
            if !has then Some([])
            else
              match Item(first, "linksetdbs")
              case Err(_) => None
              case Ok(dbs) =>
                match Iter(dbs)
                case Err(_) => None
                case Ok(items) => Some(items)
  }

  /** The ids `get_pubmed_ids_from_clinvar` returns for a decoded reply. */
  function PubmedIds(data: Value): seq<Value> {
    match FirstLinksetDbs(data)
    case None => []
    case Some(dbs) =>
      match Collected(dbs)
      case None => []
      case Some(ids) => ids
  }

  /** The ids `get_pubmed_ids_from_clinvar` returns for a request outcome. */
  function ElinkIds(outcome: HttpOutcome): seq<Value> {
    match CheckedJson(outcome)
    case Err(_) => []
    case Ok(data) => PubmedIds(data)
  }

  /** Once an access has raised, later linksetdbs cannot bring the ids back. */
  lemma {:induction false} CollectedStaysFailed(dbs: seq<Value>, i: nat)
    requires i <= |dbs| && Collected(dbs[..i]) == None
    ensures Collected(dbs) == None
    decreases |dbs| - i
  {
    if i < |dbs| {
      assert dbs[..i + 1][..i] == dbs[..i];
      CollectedStaysFailed(dbs, i + 1);
    } else {
      assert dbs[..i] == dbs;
    }
  }

  /**
   * The loop of pubmed_handler.py:18-22: `extend` with the `links` of every linksetdb
   * that targets pubmed; `None` as soon as an access raises.
   */
  method CollectPubmedLinks(dbs: seq<Value>) returns (r: Option<seq<Value>>)
    ensures r == Collected(dbs)
  {
    var pmids := [];
    var i := 0;
    while i < |dbs|
      invariant 0 <= i <= |dbs|
      invariant Collected(dbs[..i]) == Some(pmids)
    {
      var db := dbs[i];
      assert dbs[..i + 1][..i] == dbs[..i];
      var target := Item(db, "dbto");
      if target.Err? {
        assert DbLinks(db) == None;
        CollectedStaysFailed(dbs, i + 1);
        return None;
      }
      if target.value == VStr("pubmed") {
        var links := Item(db, "links");
        if links.Err? {
          assert DbLinks(db) == None;
          CollectedStaysFailed(dbs, i + 1);
          return None;
        }
        var ids := Iter(links.value);
        if ids.Err? {
          assert DbLinks(db) == None;
          CollectedStaysFailed(dbs, i + 1);
          return None;
        }
        assert DbLinks(db) == Some(ids.value);
        pmids := pmids + ids.value;
      } else {
        assert DbLinks(db) == Some([]);
        assert pmids + [] == pmids;
      }
      i := i + 1;
    }
    assert dbs[..i] == dbs;
    return Some(pmids);
  }

  /**
   * `get_pubmed_ids_from_clinvar` (pubmed_handler.py:11-24): the first linkset's
   * linksetdbs are walked; every exception is swallowed into `[]`.
   */
  method GetPubmedIdsFromClinvar(outcome: HttpOutcome) returns (pmids: seq<Value>)
    ensures pmids == ElinkIds(outcome)
  {
    var data := CheckedJson(outcome);
    if data.Err? {
      return [];
    }
    var linksets := Get(data.value, "linksets", VList([]));
    if linksets.Err? {
      return [];
    }
    if !Truthy(linksets.value) {
      return [];
    }
    var first := First(linksets.value);
    if first.Err? {
      return [];
    }
    var has := Contains(first.value, "linksetdbs");
    if has.Err? || !has.value {
      return [];
    }
    var dbsValue := Item(first.value, "linksetdbs");
    if dbsValue.Err? {
      return [];
    }
    var dbs := Iter(dbsValue.value);
    if dbs.Err? {
      return [];
    }
    assert FirstLinksetDbs(data.value) == Some(dbs.value);
    var collected := CollectPubmedLinks(dbs.value);
    if collected.None? {
      return [];
    }
    pmids := collected.value;
  }

  /** A reply without `linksets`, with an empty one, or whose first linkset lacks `linksetdbs`, gives `[]`. */
  lemma NoLinksetDbs(es: seq<(string, Value)>)
    requires Lookup(es, "linksets") == None
             || Lookup(es, "linksets") == Some(VList([]))
             || (exists first, rest :: Lookup(es, "linksets") == Some(VList([first] + rest))
                                       && first.VDict? && !HasKey(first, "linksetdbs"))
    ensures PubmedIds(VDict(es)) == []
  {
  }

  /** Only the first linkset is consulted: the others never change the ids. */
  lemma OnlyFirstLinkset(es1: seq<(string, Value)>, es2: seq<(string, Value)>, first: Value,
                         rest1: seq<Value>, rest2: seq<Value>)
    requires Lookup(es1, "linksets") == Some(VList([first] + rest1))
    requires Lookup(es2, "linksets") == Some(VList([first] + rest2))
    ensures PubmedIds(VDict(es1)) == PubmedIds(VDict(es2))
  {
  }

  /** Both sides succeeded: their ids one after the other; otherwise `None`. */
  function Combine(x: Option<seq<Value>>, y: Option<seq<Value>>): Option<seq<Value>> {
    if x.Some? && y.Some? then Some(x.value + y.value) else None
  }

  lemma CombineAssociative(x: Option<seq<Value>>, y: Option<seq<Value>>, z: Option<seq<Value>>)
    ensures Combine(Combine(x, y), z) == Combine(x, Combine(y, z))
  {
    if x.Some? && y.Some? && z.Some? {
      assert x.value + y.value + z.value == x.value + (y.value + z.value);
    }
  }

  /** One more linksetdb at the end of the walk. */
  lemma CollectedSnoc(d: seq<Value>, db: Value)
    ensures Collected(d + [db]) == Combine(Collected(d), DbLinks(db))
  {
    assert (d + [db])[..|d|] == d;
  }

  /** The collected ids of `a + b` are those of `a` followed by those of `b`; a failure in either fails both. */
  lemma {:induction false} CollectedAppend(a: seq<Value>, b: seq<Value>)
    ensures Collected(a + b) == Combine(Collected(a), Collected(b))
    decreases |b|
  {
    if b == [] {
      assert a + b == a;
      if Collected(a).Some? {
        assert Collected(a).value + [] == Collected(a).value;
      }
    } else {
      var init := b[..|b| - 1];
      var last := b[|b| - 1];
      assert a + b == (a + init) + [last];
      assert b == init + [last];
      CollectedSnoc(a + init, last);
      CollectedSnoc(init, last);
      CollectedAppend(a, init);
      CombineAssociative(Collected(a), Collected(init), DbLinks(last));
    }
  }

  /** A single linksetdb contributes what `DbLinks` says. */
  lemma CollectedSingle(db: Value)
    ensures Collected([db]) == DbLinks(db)
  {
    CollectedSnoc([], db);
    assert [] + [db] == [db];
    if DbLinks(db).Some? {
      assert [] + DbLinks(db).value == DbLinks(db).value;
    }
  }

  /** A linksetdb with another target contributes nothing. */
  lemma SkipsOtherTargets(a: seq<Value>, db: Value, b: seq<Value>)
    requires HasKey(db, "dbto") && Lookup(db.entries, "dbto") != Some(VStr("pubmed"))
    ensures Collected(a + [db] + b) == Collected(a + b)
  {
    CollectedAppend(a + [db], b);
    CollectedAppend(a, [db]);
    CollectedAppend(a, b);
    CollectedSingle(db);
    assert DbLinks(db) == Some([]);
    if Collected(a).Some? {
      assert Collected(a).value + [] == Collected(a).value;
    }
  }

  /** A pubmed-targeted linksetdb whose `links` is a list contributes exactly those links, in place. */
  lemma AddsPubmedLinks(a: seq<Value>, db: Value, b: seq<Value>, links: seq<Value>)
    requires HasKey(db, "dbto") && Lookup(db.entries, "dbto") == Some(VStr("pubmed"))
    requires HasKey(db, "links") && Lookup(db.entries, "links") == Some(VList(links))
    requires Collected(a).Some? && Collected(b).Some?
    ensures Collected(a + [db] + b) == Some(Collected(a).value + links + Collected(b).value)
  {
    CollectedAppend(a + [db], b);
    CollectedAppend(a, [db]);
    CollectedSingle(db);
    assert DbLinks(db) == Some(links);
  }

  /** The number of ids: the lengths of the pubmed `links`, summed, when every access succeeds. */
  function LinkCount(dbs: seq<Value>): nat
    decreases |dbs|
  {
    if dbs == [] then 0
    else
      LinkCount(dbs[..|dbs| - 1])
      + (match DbLinks(dbs[|dbs| - 1]) case Some(ids) => |ids| case None => 0)
  }

  /** Nothing is truncated: the result is exactly as long as the links it collects. */
  lemma {:induction false} CollectedLength(dbs: seq<Value>)
    requires Collected(dbs).Some?
    ensures |Collected(dbs).value| == LinkCount(dbs)
    decreases |dbs|
  {
    if dbs != [] {
      CollectedLength(dbs[..|dbs| - 1]);
    }
  }

  /** One linksetdb that raises discards every id collected before or after it. */
  lemma FailureDiscards(a: seq<Value>, db: Value, b: seq<Value>)
    requires DbLinks(db).None?
    ensures Collected(a + [db] + b) == None
  {
    CollectedAppend(a + [db], b);
    CollectedAppend(a, [db]);
    CollectedSingle(db);
  }

  /** Every request failure, HTTP error status or undecodable body gives `[]`. */
  lemma RequestFailureIsEmpty(outcome: HttpOutcome)
    requires CheckedJson(outcome).Err?
    ensures ElinkIds(outcome) == []
  {
  }

  const PubmedPrefix: string := "https://pubmed.ncbi.nlm.nih.gov/"

  /** `build_pubmed_links`: one article link per id, same order. */
  function BuildPubmedLinks(pmids: seq<Value>): (links: seq<string>)
    ensures |links| == |pmids|
    ensures forall i :: 0 <= i < |pmids| ==> links[i] == PubmedPrefix + Str(pmids[i]) + "/"
  {
    seq(|pmids|, i requires 0 <= i < |pmids| => PubmedPrefix + Str(pmids[i]) + "/")
  }

  /** The id written in a PubMed article link. */
  function LinkId(link: string): string
    requires |link| > |PubmedPrefix|
  {
    link[|PubmedPrefix|..|link| - 1]
  }

  /** Reading the id back out of each built link gives the id's text. */
  lemma LinksRoundTrip(pmids: seq<Value>, i: nat)
    requires i < |pmids|
    ensures |BuildPubmedLinks(pmids)[i]| > |PubmedPrefix|
    ensures LinkId(BuildPubmedLinks(pmids)[i]) == Str(pmids[i])
  {
    var link := BuildPubmedLinks(pmids)[i];
    assert link == PubmedPrefix + Str(pmids[i]) + "/";
    assert link[|PubmedPrefix|..|link| - 1] == Str(pmids[i]);
  }

  /** Two text ids give the same link only when they are the same id. */
  lemma LinksInjective(pmids: seq<Value>, i: nat, j: nat)
    requires i < |pmids| && j < |pmids| && pmids[i].VStr? && pmids[j].VStr?
    requires BuildPubmedLinks(pmids)[i] == BuildPubmedLinks(pmids)[j]
    ensures pmids[i] == pmids[j]
  {
    LinksRoundTrip(pmids, i);
    LinksRoundTrip(pmids, j);
  }
}
