/** Ordered checks: an operation goes through exactly when all hold, and otherwise fails with the error
    of the first that does not. */
module Guards {
  import opened Wrappers

  datatype Guard<E> = Guard(holds: bool, error: E)

  /** The error of the first failing check at or after position `k`. */
  function VerdictFrom<E>(guards: seq<Guard<E>>, k: nat): Option<E>
    decreases |guards| - k
  {
    if k >= |guards| then None
    else if !guards[k].holds then Some(guards[k].error)
    else VerdictFrom(guards, k + 1)
  }

  function Verdict<E>(guards: seq<Guard<E>>): Option<E> {
    VerdictFrom(guards, 0)
  }

  /** One check after the other. */
  lemma Unfold<E>(guards: seq<Guard<E>>)
    ensures forall k: nat {:trigger VerdictFrom(guards, k)} ::
      VerdictFrom(guards, k) == (if k >= |guards| then None
                                 else if !guards[k].holds then Some(guards[k].error)
                                 else VerdictFrom(guards, k + 1))
  {
  }

  /** One table after another. */
  lemma {:induction false} Concat<E>(guards: seq<Guard<E>>, more: seq<Guard<E>>, k: nat)
    requires k <= |guards|
    ensures VerdictFrom(guards + more, k) == if VerdictFrom(guards, k).Some? then VerdictFrom(guards, k) else Verdict(more)
    decreases |guards| - k
  {
    if k < |guards| {
      Concat(guards, more, k + 1);
    } else {
      Shift(guards, more, 0);
    }
  }

  lemma {:induction false} Shift<E>(guards: seq<Guard<E>>, more: seq<Guard<E>>, k: nat)
    requires k <= |more|
    ensures VerdictFrom(guards + more, |guards| + k) == VerdictFrom(more, k)
    decreases |more| - k
  {
    if k < |more| {
      Shift(guards, more, k + 1);
    }
  }

  lemma {:induction false} VerdictIsFirst<E>(guards: seq<Guard<E>>, from: nat)
    requires from <= |guards|
    ensures VerdictFrom(guards, from).None? <==> forall k :: from <= k < |guards| ==> guards[k].holds
    ensures VerdictFrom(guards, from).Some? ==>
      exists k :: from <= k < |guards| && !guards[k].holds && guards[k].error == VerdictFrom(guards, from).value
                  && (forall i :: from <= i < k ==> guards[i].holds)
    decreases |guards| - from
  {
    if from < |guards| && guards[from].holds {
      VerdictIsFirst(guards, from + 1);
    }
  }
}
