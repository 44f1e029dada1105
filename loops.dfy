/** The shape shared by the loops of the pipeline that go through a list in
    order and stop at the first element that raises: the results of the
    elements handled so far, or the first exception. */
module Loops {
  import opened PyValues

  /** `step` applied to every element in order; the first failure stops
      the loop and is the result. */
  function Collect<A, B>(step: A -> Result<B>, xs: seq<A>): Result<seq<B>> {
    if xs == [] then Success([])
    else
      var earlier :- Collect(step, xs[..|xs| - 1]);
      var y :- step(xs[|xs| - 1]);
      Success(earlier + [y])
  }

  /** The loop gets through exactly when no element raises. */
  lemma {:induction false} CollectSucceeds<A, B>(step: A -> Result<B>, xs: seq<A>)
    ensures Collect(step, xs).Success? <==> forall i :: 0 <= i < |xs| ==> step(xs[i]).Success?
  {
    if xs != [] {
      var init := xs[..|xs| - 1];
      CollectSucceeds(step, init);
      assert forall i :: 0 <= i < |init| ==> init[i] == xs[i];
    }
  }

  /** One result per element, in order, each the element's own. */
  lemma {:induction false} CollectEntries<A, B>(step: A -> Result<B>, xs: seq<A>)
    requires Collect(step, xs).Success?
    ensures |Collect(step, xs).value| == |xs|
    ensures forall i :: 0 <= i < |xs| ==> step(xs[i]) == Success(Collect(step, xs).value[i])
  {
    if xs != [] {
      var init := xs[..|xs| - 1];
      CollectEntries(step, init);
      assert forall i :: 0 <= i < |init| ==> init[i] == xs[i];
    }
  }

  /** The exception is that of the first element that raises. */
  lemma {:induction false} CollectFirstError<A, B>(step: A -> Result<B>, xs: seq<A>)
    requires Collect(step, xs).Failure?
    ensures exists i :: 0 <= i < |xs|
                      && (forall j :: 0 <= j < i ==> step(xs[j]).Success?)
                      && step(xs[i]) == Failure(Collect(step, xs).error)
  {
    var init := xs[..|xs| - 1];
    assert forall i :: 0 <= i < |init| ==> init[i] == xs[i];
    if Collect(step, init).Failure? {
      CollectFirstError(step, init);
      var i :| 0 <= i < |init|
               && (forall j :: 0 <= j < i ==> step(init[j]).Success?)
               && step(init[i]) == Failure(Collect(step, init).error);
      assert step(xs[i]) == Failure(Collect(step, xs).error);
    } else {
      CollectSucceeds(step, init);
      assert step(xs[|xs| - 1]) == Failure(Collect(step, xs).error);
    }
  }

  /** Once an element has raised, the later ones change nothing. */
  lemma {:induction false} CollectFailurePersists<A, B>(step: A -> Result<B>, xs: seq<A>, k: nat)
    requires k <= |xs|
    requires Collect(step, xs[..k]).Failure?
    ensures Collect(step, xs) == Collect(step, xs[..k])
    decreases |xs| - k
  {
    if k == |xs| {
      assert xs[..k] == xs;
    } else {
      var init := xs[..|xs| - 1];
      assert init[..k] == xs[..k];
      CollectFailurePersists(step, init, k);
    }
  }

  /** Handling one more element: its result is appended, or its exception
      ends the loop. */
  lemma CollectStep<A, B>(step: A -> Result<B>, xs: seq<A>, i: nat)
    requires i < |xs|
    ensures Collect(step, xs[..i + 1])
            == (if Collect(step, xs[..i]).Failure? then Collect(step, xs[..i])
                else if step(xs[i]).Failure? then Failure(step(xs[i]).error)
                else Success(Collect(step, xs[..i]).value + [step(xs[i]).value]))
  {
    assert xs[..i + 1][..i] == xs[..i];
    assert xs[..i + 1][i] == xs[i];
  }
}
