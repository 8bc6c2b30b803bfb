// Facts carried along without being looked into.

module Folding {

  // Nothing hangs on n. A predicate whose body is `forall n :: Folded(n) ==> P` says just what P
  // says, but the verifier does not look into P until Folded(0) is named. So loops and calls can
  // hand on a large P as it is, and only the lemma that needs it opens it.
  ghost predicate Folded(n: nat) { n >= 0 }

  // The same for a predicate around one that is folded already.
  ghost predicate Closed(n: nat) { n >= 0 }
}
