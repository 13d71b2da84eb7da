/** What several of the models share. */
module Common {

  datatype Option<+T> = None | Some(value: T)

  /** Nothing occurs twice in the list. */
  predicate NoDup<T(==)>(l: seq<T>) {
    forall i, j :: 0 <= i < j < |l| ==> l[i] != l[j]
  }
}
