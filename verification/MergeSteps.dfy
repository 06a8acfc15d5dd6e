/** The shape of a merge transaction: statements that go on from one another's tables until one of them is refused. */
module MergeSteps {
  import opened Text

  /** Where a transaction stands: still going, or thrown out with the tables as they were at that moment. */
  datatype Outcome<S> = Done(state: S) | Aborted(state: S)

  /** One step for each plan in order; the first refusal ends the loop. */
  function Fold<S, P>(step: (S, P) -> Outcome<S>, s: S, plans: seq<P>): Outcome<S> {
    if |plans| == 0 then Done(s)
    else
      match Fold(step, s, plans[..|plans| - 1])
      case Aborted(t) => Aborted(t)
      case Done(t) => step(t, plans[|plans| - 1])
  }

  lemma FoldStarts<S, P>(step: (S, P) -> Outcome<S>, s: S, plans: seq<P>)
    ensures Fold(step, s, plans[..0]) == Done(s)
  {
  }

  lemma FoldNext<S, P>(step: (S, P) -> Outcome<S>, s: S, plans: seq<P>, i: nat)
    requires i < |plans|
    ensures Fold(step, s, plans[..i]).Done? ==>
              Fold(step, s, plans[..i + 1]) == step(Fold(step, s, plans[..i]).state, plans[i])
    ensures Fold(step, s, plans[..i]).Aborted? ==> Fold(step, s, plans[..i + 1]) == Fold(step, s, plans[..i])
  {
    var front := plans[..i + 1];
    assert front[..|front| - 1] == plans[..i];
  }

  /** What was refused stays refused. */
  lemma {:induction false} FoldStops<S, P>(step: (S, P) -> Outcome<S>, s: S, plans: seq<P>, i: nat)
    requires i <= |plans| && Fold(step, s, plans[..i]).Aborted?
    ensures Fold(step, s, plans) == Fold(step, s, plans[..i])
    decreases |plans| - i
  {
    if i < |plans| {
      FoldNext(step, s, plans, i);
      FoldStops(step, s, plans, i + 1);
    } else {
      assert plans[..i] == plans;
    }
  }

  lemma FoldEnds<S, P>(step: (S, P) -> Outcome<S>, s: S, plans: seq<P>)
    ensures Fold(step, s, plans[..|plans|]) == Fold(step, s, plans)
  {
    assert plans[..|plans|] == plans;
  }

  /** A loop that got through got through every step. */
  lemma FoldPrefixDone<S, P>(step: (S, P) -> Outcome<S>, s: S, plans: seq<P>, i: nat)
    requires i <= |plans| && Fold(step, s, plans).Done?
    ensures Fold(step, s, plans[..i]).Done?
  {
    if Fold(step, s, plans[..i]).Aborted? {
      FoldStops(step, s, plans, i);
    }
  }

  /** Every row that was there is there as it was. */
  ghost predicate RowsStay<K, V>(before: map<K, V>, after: map<K, V>) {
    forall k :: k in before ==> k in after && after[k] == before[k]
  }

  /** The plans that pass a test, in order. */
  function Keep<P(!new)>(test: P -> bool, plans: seq<P>): (kept: seq<P>)
    ensures forall p :: p in kept <==> p in plans && test(p)
  {
    if |plans| == 0 then []
    else if test(plans[0]) then [plans[0]] + Keep(test, plans[1..])
    else Keep(test, plans[1..])
  }

  lemma {:induction false} KeepNone<P(!new)>(test: P -> bool, plans: seq<P>)
    requires forall p :: p in plans ==> !test(p)
    ensures Keep(test, plans) == []
  {
    if |plans| > 0 {
      KeepNone(test, plans[1..]);
    }
  }
}
