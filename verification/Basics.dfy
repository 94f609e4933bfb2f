/** What the models of the C code have in common. */
module Basics {

  const NULL := 0

  ghost predicate Distinct<T>(s: seq<T>) {
    forall i, j :: 0 <= i < j < |s| ==> s[i] != s[j]
  }
}
