/** Failure-carrying datatypes and facts on sequences, shared by the components. */
module Wrappers {
  datatype Option<+T> = None | Some(value: T) {
    function GetOr(default: T): T {
      match this
      case Some(v) => v
      case None => default
    }
  }

  datatype Result<+T, +E> = Ok(value: T) | Err(error: E)

  lemma Associates<T>(a: seq<T>, b: seq<T>, c: seq<T>)
    ensures a + (b + c) == a + b + c
  {
  }

  /** The items that are kept, in their order. */
  function Filter<T(!new)>(items: seq<T>, keep: T -> bool): (r: seq<T>)
    ensures forall x :: x in r <==> x in items && keep(x)
  {
    if items == [] then []
    else
      assert items == [items[0]] + items[1..];
      (if keep(items[0]) then [items[0]] else []) + Filter(items[1..], keep)
  }

  lemma {:induction false} FilterAppend<T(!new)>(front: seq<T>, back: seq<T>, keep: T -> bool)
    ensures Filter(front + back, keep) == Filter(front, keep) + Filter(back, keep)
  {
    if front == [] {
      assert front + back == back;
    } else {
      FilterAppend(front[1..], back, keep);
      assert (front + back)[1..] == front[1..] + back && (front + back)[0] == front[0];
      Associates(if keep(front[0]) then [front[0]] else [], Filter(front[1..], keep), Filter(back, keep));
    }
  }
}
