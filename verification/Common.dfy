/** Helpers shared by the models. */
module Common {

  datatype Option<T> = None | Some(value: T)

  ghost predicate NoRepeats<T>(q: seq<T>) {
    forall i, j :: 0 <= i < j < |q| ==> q[i] != q[j]
  }
}
