/** Optional values and success-or-error results, shared by every module of the model. */
module Wrappers {

  /** A value that may be absent (Python's `None` where the source returns "no value"). */
  datatype Option<+T> = None | Some(value: T)

  /** The outcome of a step that either produces a value or raises. */
  datatype Result<+T, +E> = Ok(value: T) | Err(error: E)

  /**
   * A loop that appends the value of each step and stops at the first exception: the
   * outcome after the steps `rs`.
   */
  function Gather<T, E>(rs: seq<Result<T, E>>): (r: Result<seq<T>, E>)
    ensures r.Ok? ==> |r.value| == |rs|
    decreases |rs|
  {
    if rs == [] then Ok([])
    else
      match Gather(rs[..|rs| - 1])
      case Err(e) => Err(e)
      case Ok(values) =>
        match rs[|rs| - 1]
        case Err(e) => Err(e)
        case Ok(v) => Ok(values + [v])
  }

  /** Once a step has failed, the later steps do not matter. */
  lemma {:induction false} GatherStaysFailed<T, E>(rs: seq<Result<T, E>>, i: nat)
    requires i <= |rs| && Gather(rs[..i]).Err?
    ensures Gather(rs) == Gather(rs[..i])
    decreases |rs| - i
  {
    if i < |rs| {
      assert rs[..i + 1][..i] == rs[..i];
      GatherStaysFailed(rs, i + 1);
    } else {
      assert rs[..i] == rs;
    }
  }

  /** One more step. */
  lemma GatherSnoc<T, E>(rs: seq<Result<T, E>>, x: Result<T, E>)
    ensures Gather(rs + [x]) == match Gather(rs)
                                case Err(e) => Err(e)
                                case Ok(values) => (match x case Err(e) => Err(e) case Ok(v) => Ok(values + [v]))
  {
    assert (rs + [x])[..|rs|] == rs;
  }

  /**
   * The loop succeeds exactly when every step does, and then value `k` is step `k`'s;
   * otherwise its exception is that of the first failing step.
   */
  lemma {:induction false} GatherAll<T, E>(rs: seq<Result<T, E>>)
    ensures Gather(rs).Ok? <==> forall k :: 0 <= k < |rs| ==> rs[k].Ok?
    ensures Gather(rs).Ok? ==> forall k :: 0 <= k < |rs| ==> Gather(rs).value[k] == rs[k].value
    ensures Gather(rs).Err? ==>
              exists k :: 0 <= k < |rs| && rs[k] == Err(Gather(rs).error) && forall j :: 0 <= j < k ==> rs[j].Ok?
    decreases |rs|
  {
    if rs != [] {
      var init := rs[..|rs| - 1];
      GatherAll(init);
      assert forall k :: 0 <= k < |init| ==> init[k] == rs[k];
      if Gather(init).Ok? && rs[|rs| - 1].Err? {
        assert forall j :: 0 <= j < |rs| - 1 ==> rs[j].Ok?;
      }
    }
  }
}
