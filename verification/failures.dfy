/** Error values and result wrappers shared by the whole model.
    Every exception the modelled Python code raises becomes one `Error`
    constructor, so operations return a `Result` instead of throwing. */
module Failures {

  /** The exceptions raised by the modelled code, one constructor each. */
  datatype Error =
    | NoResult            // lookup of a (circuit, container) pair that was never aggregated
    | NoMeasurements      // an execution result holds no counts for a dispatched variant
    | MissingKey          // a Python KeyError on a dictionary lookup
    | IndexOutOfRange     // a Python IndexError on a list lookup
    | DevicesMismatch     // the opinion pool's consistency check failed
    | NonPositiveTopN     // a conformal set was asked for n <= 0 states
    | NotInSpares         // list.remove of a unit that is not a spare
    | MissingPatternName  // a builder without a name
    | NoChannels          // a builder without channels
    | NoCombiner          // a combiner builder with neither combiner nor uniform pooling
    | UnhashableChannel   // a channel list used as a dictionary key
    | NotAChannel         // a channel list where a single channel is needed
    | StateNotMeasured    // the correct state is not among the measured states
    | DivisionByZero      // a Python ZeroDivisionError
    | LengthMismatch      // a failed length assertion
    | BatchSizeMismatch   // a circuit batch whose size does not match its circuits
    | EmptyRandomRange    // a Python ValueError from random.randint with an empty range

  /** Success value or the error the source would raise. */
  datatype Result<+T> = Ok(value: T) | Err(error: Error) {
    predicate IsFailure() { Err? }

    function PropagateFailure<U>(): Result<U>
      requires Err?
    {
      Err(error)
    }

    function Extract(): T
      requires Ok?
    {
      value
    }
  }

  /** Python's `None` or a value. */
  datatype Option<+T> = None | Some(value: T)

  /** Applies `f` to every element in order, like a Python loop that
      raises on the first failing element. */
  function Traverse<A, B>(xs: seq<A>, f: A -> Result<B>): (r: Result<seq<B>>)
    ensures r.Ok? ==> |r.value| == |xs|
  {
    if xs == [] then Ok([])
    else
      var y :- f(xs[0]);
      var ys :- Traverse(xs[1..], f);
      Ok([y] + ys)
  }

  /** The loop succeeds exactly when every element succeeds, and then
      yields the elements' values in order; otherwise it raises the error
      of the first failing element. */
  lemma {:induction false} TraverseSpec<A, B>(xs: seq<A>, f: A -> Result<B>)
    ensures Traverse(xs, f).Ok? <==> forall k :: 0 <= k < |xs| ==> f(xs[k]).Ok?
    ensures Traverse(xs, f).Ok? ==> forall k :: 0 <= k < |xs| ==> Traverse(xs, f).value[k] == f(xs[k]).value
    ensures Traverse(xs, f).Err? ==>
              exists k :: 0 <= k < |xs| && f(xs[k]) == Err(Traverse(xs, f).error) &&
                          forall k' :: 0 <= k' < k ==> f(xs[k']).Ok?
  {
    if xs != [] {
      TraverseSpec(xs[1..], f);
      assert forall k :: 0 < k < |xs| ==> xs[k] == xs[1..][k - 1];
      if f(xs[0]).Ok? && Traverse(xs[1..], f).Err? {
        var k :| 0 <= k < |xs[1..]| && f(xs[1..][k]) == Err(Traverse(xs[1..], f).error) &&
                 forall k' :: 0 <= k' < k ==> f(xs[1..][k']).Ok?;
        assert f(xs[k + 1]) == Err(Traverse(xs, f).error);
      } else if f(xs[0]).Err? {
        assert f(xs[0]) == Err(Traverse(xs, f).error);
      }
    }
  }
}
