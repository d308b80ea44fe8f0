/**
 Failure-carrying values shared by every script model.

 The Python scripts never catch the exceptions raised while converting a
 spreadsheet; such an exception ends the script before anything is written.
 `Result` carries either the value a step produced or the exception that
 stopped it, so a caller can chain steps with `:-` in the order Python
 evaluates them.
 */
module Outcomes {

  /** A value that may be absent (Python `None`). */
  datatype Option<+T> = None | Some(value: T)

  /** The Python exceptions the modelled scripts can raise and do not catch. */
  datatype Crash =
    | KeyError(key: string)       // a column or dictionary key that is not there
    | TypeError                   // an ordering comparison between a string and a number
    | OverflowError               // int() of an infinite float
    | ValueError                  // int() of a text that is not a decimal integer
    | FileNotFound(name: string)  // reading a spreadsheet file that does not exist

  datatype Result<+T> = Ok(value: T) | Err(error: Crash) {

    predicate IsFailure() {
      Err?
    }

    function PropagateFailure<U>(): Result<U>
      requires Err?
    {
      Err(error)
    }

    function Extract(): T
      requires Ok?
    {
      value
    }
  }

  /**
   Run `steps` in order: all their values, or the exception of the first
   one that failed (a Python loop that does not catch).
   */
  function Gather<T>(steps: seq<Result<T>>): (r: Result<seq<T>>)
    ensures r.Ok? ==> |r.value| == |steps|
    ensures r.Ok? ==> forall i :: 0 <= i < |steps| ==> steps[i] == Ok(r.value[i])
  {
    if |steps| == 0 then Ok([])
    else
      var first :- steps[0];
      var rest :- Gather(steps[1..]);
      Ok([first] + rest)
  }

  /** The steps succeed together exactly when each of them succeeds. */
  lemma {:induction false} GatherOk<T>(steps: seq<Result<T>>)
    ensures Gather(steps).Ok? <==> forall i :: 0 <= i < |steps| ==> steps[i].Ok?
  {
    if |steps| > 0 {
      GatherOk(steps[1..]);
      assert forall i :: 1 <= i < |steps| ==> steps[i] == steps[1..][i - 1];
    }
  }

  /** A failure is the one of a step that failed, and every step before it succeeded. */
  lemma {:induction false} GatherFirstError<T>(steps: seq<Result<T>>)
    requires Gather(steps).Err?
    ensures exists i :: 0 <= i < |steps| && steps[i] == Err(Gather(steps).error)
                        && forall j :: 0 <= j < i ==> steps[j].Ok?
  {
    var e := Gather(steps).error;
    if steps[0].Ok? {
      var tail := steps[1..];
      GatherFirstError(tail);
      var i :| 0 <= i < |tail| && tail[i] == Err(e) && forall j :: 0 <= j < i ==> tail[j].Ok?;
      assert steps[i + 1] == tail[i];
      assert forall j :: 1 <= j < i + 1 ==> steps[j] == tail[j - 1];
    }
  }
}
