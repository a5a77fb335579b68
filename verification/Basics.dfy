module Basics {
  datatype Option<T> = None | Some(value: T)

  /** `order` lists the members of `xs`, each once. */
  ghost predicate Lists<T(!new)>(order: seq<T>, xs: set<T>) {
    && (forall x :: x in order <==> x in xs)
    && (forall i, j :: 0 <= i < j < |order| ==> order[i] != order[j])
  }
}
