/** Failure-compatible wrappers and the exceptions the modelled Python code can raise. */
module Wrappers {

  datatype Option<+T> = None | Some(value: T) {
    predicate IsFailure() { None? }

    function PropagateFailure<U>(): Option<U>
      requires None?
    {
      None
    }

    function Extract(): T
      requires Some?
    {
      value
    }

    function GetOr(default: T): T {
      match this
      case Some(v) => v
      case None => default
    }
  }

  /** The Python exceptions that reach a caller of the core; `msg` is what `str(e)` yields. */
  datatype Error =
    | ValueError(msg: string)
    | TypeError(msg: string)
    | AttributeError(msg: string)
    | StopIteration

  /** `str(e)` of an exception; a bare `StopIteration()` prints as the empty string. */
  function Message(e: Error): string {
    match e
    case ValueError(m) => m
    case TypeError(m) => m
    case AttributeError(m) => m
    case StopIteration => ""
  }

  datatype Result<+T> = Ok(value: T) | Err(error: Error) {
    predicate IsFailure() { Err? }

    function PropagateFailure<U>(): Result<U>
      requires Err?
    {
      Err(error)
    }

    function Extract(): T
      requires Ok?
    {
      value
    }
  }

  /** The values of a run of results in order, or the first failure among them. */
  function AllOk<T>(rs: seq<Result<T>>): (r: Result<seq<T>>)
    ensures r.Ok? <==> forall i :: 0 <= i < |rs| ==> rs[i].Ok?
    ensures r.Err? ==> exists i :: 0 <= i < |rs| && rs[i].Err? && r.error == rs[i].error && forall j :: 0 <= j < i ==> rs[j].Ok?
    ensures r.Ok? ==> |r.value| == |rs| && forall i :: 0 <= i < |rs| ==> rs[i] == Ok(r.value[i])
    decreases |rs|
  {
    if |rs| == 0 then Ok([])
    else
      match rs[0]
      case Err(e) => Err(e)
      case Ok(head) =>
        var rest := AllOk(rs[1..]);
        assert forall i :: 1 <= i < |rs| ==> rs[i] == rs[1..][i - 1];
        if rest.Err? then
          var k :| 0 <= k < |rs[1..]| && rs[1..][k].Err? && rest.error == rs[1..][k].error && forall j :: 0 <= j < k ==> rs[1..][j].Ok?;
          assert rs[k + 1].Err? && rest.error == rs[k + 1].error;
          Err(rest.error)
        else
          var all := [head] + rest.value;
          assert forall i :: 1 <= i < |rs| ==> all[i] == rest.value[i - 1];
          Ok(all)
  }

  /** The message `json.loads(None)` raises; the request handler rewrites it. */
  const JsonNoneMessage: string := "the JSON object must be str, bytes or bytearray, not NoneType"

  /** `None.get(...)` on a missing nested dictionary. */
  const NoneGetMessage: string := "'NoneType' object has no attribute 'get'"
}
