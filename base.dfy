/** Failure-compatible wrappers used across the model: `Option` stands for a
    Python value that may be `None`, `Result` for a call that either returns or
    raises. */
module Base {

  datatype Option<+T> = None | Some(value: T)

  datatype Result<+T, +E> = Ok(value: T) | Err(error: E)

  /** A loop that appends `f(x)` for each `x` in turn and stops at the first
      failure, as a list built element by element in Python does when one
      step raises. */
  function MapAll<T, U, E>(f: T -> Result<U, E>, xs: seq<T>, acc: seq<U>): Result<seq<U>, E>
    decreases |xs|
  {
    if xs == [] then Ok(acc)
    else match f(xs[0])
      case Err(e) => Err(e)
      case Ok(y) => MapAll(f, xs[1..], acc + [y])
  }

  /** On success there is one result per element, in order, after `acc`. */
  lemma {:induction false} MapAllOk<T, U, E>(f: T -> Result<U, E>, xs: seq<T>, acc: seq<U>)
    requires MapAll(f, xs, acc).Ok?
    ensures var ys := MapAll(f, xs, acc).value;
            && |ys| == |acc| + |xs| && ys[..|acc|] == acc
            && forall i :: 0 <= i < |xs| ==> f(xs[i]) == Ok(ys[|acc| + i])
    decreases |xs|
  {
    if xs != [] {
      var y := f(xs[0]).value;
      MapAllOk(f, xs[1..], acc + [y]);
      var ys := MapAll(f, xs, acc).value;
      forall i | 0 <= i < |xs| ensures f(xs[i]) == Ok(ys[|acc| + i]) {
        if i > 0 {
          assert xs[i] == xs[1..][i - 1];
        }
      }
    }
  }

  /** A failure is the failure of some element, every element before it
      having succeeded. */
  lemma {:induction false} MapAllErr<T, U, E>(f: T -> Result<U, E>, xs: seq<T>, acc: seq<U>)
    requires MapAll(f, xs, acc).Err?
    ensures exists i :: 0 <= i < |xs| && f(xs[i]) == Err(MapAll(f, xs, acc).error) && forall k :: 0 <= k < i ==> f(xs[k]).Ok?
    decreases |xs|
  {
    if f(xs[0]).Err? {
      assert f(xs[0]) == Err(MapAll(f, xs, acc).error);
    } else {
      MapAllErr(f, xs[1..], acc + [f(xs[0]).value]);
      var i :| 0 <= i < |xs[1..]| && f(xs[1..][i]) == Err(MapAll(f, xs[1..], acc + [f(xs[0]).value]).error)
               && forall k :: 0 <= k < i ==> f(xs[1..][k]).Ok?;
      assert f(xs[i + 1]) == Err(MapAll(f, xs, acc).error);
      forall k | 0 <= k < i + 1 ensures f(xs[k]).Ok? {
        if k > 0 {
          assert xs[k] == xs[1..][k - 1];
        }
      }
    }
  }
}
