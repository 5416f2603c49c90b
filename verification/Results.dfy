/** Values that may be absent. */
module Options {

  datatype Option<+T> = None | Some(value: T)
}

/** Results whose error carries no detail. */
module Results {

  /** `:-` passes an error on. */
  datatype Result<+T> = Ok(value: T) | Err {

    predicate IsFailure() {
      Err?
    }

    function PropagateFailure<U>(): Result<U>
      requires Err?
    {
      Err
    }

    function Extract(): T
      requires Ok?
    {
      value
    }
  }

  /** All or nothing over a list, like collecting an iterator of results. */
  function Collect<T>(xs: seq<Result<T>>): (r: Result<seq<T>>)
    ensures r.Ok? <==> forall i | 0 <= i < |xs| :: xs[i].Ok?
    ensures r.Ok? ==> |r.value| == |xs| && forall i | 0 <= i < |xs| :: xs[i] == Ok(r.value[i])
  {
    if xs == [] then Ok([])
    else
      var init :- Collect(xs[..|xs| - 1]);
      var last :- xs[|xs| - 1];
      Ok(init + [last])
  }
}
