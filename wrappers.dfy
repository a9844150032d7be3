// Option and Result types shared by every module, plus the kinds of
// exception the modelled Python code raises.

module Wrappers {

  datatype Option<T> = None | Some(value: T)
  {
    /** The value, or `default` for None. */
    function GetOr(default: T): T
    {
      if Some? then value else default
    }
  }

  /** The exception classes raised by the modelled code. */
  datatype ErrorKind =
    | ValueError
    | KeyError
    | IndexError
    | TypeError
    | RuntimeError
    | AssertionError
    | AttributeError
    | NotImplementedError
    | OverflowError
    | ZeroDivisionError
    | UnboundLocalError
    /** `netqasm.util.error.NotAllocatedError` */
    | NotAllocatedError
    /** `netqasm.util.error.NetQASMSyntaxError` */
    | SyntaxError
    /** `netqasm.util.error.NetQASMInstrError` */
    | InstrError
    /** `netqasm.sdk.futures.NoValueError` */
    | NoValueError
    /** `netqasm.sdk.futures.NonConstantIndexError` */
    | NonConstantIndexError
    /** `netqasm.sdk.qubit.QubitNotActiveError` */
    | QubitNotActiveError

  /**
   * A raised exception: its class and, for errors re-raised by the
   * executor's main loop, the program counter it was raised at
   * (the "At line {pc}: " message prefix).
   */
  datatype Error = Error(kind: ErrorKind, atLine: Option<int>)

  function Raise(kind: ErrorKind): Error
  {
    Error(kind, None)
  }

  datatype Result<T> = Ok(value: T) | Err(error: Error)
  {
    predicate IsFailure() { Err? }

    function PropagateFailure<U>(): Result<U>
      requires Err?
    {
      Err(error)
    }

    function Extract(): T
      requires Ok?
    {
      value
    }
  }

  /** A unit-valued result, for operations that only succeed or raise. */
  datatype Unit = Unit

  function Fail<T>(kind: ErrorKind): Result<T>
  {
    Err(Raise(kind))
  }

  /** The values of a list of results in order, or the error of the first that failed. */
  function AllOk<T>(rs: seq<Result<T>>): (r: Result<seq<T>>)
    ensures r.Ok? <==> forall k :: 0 <= k < |rs| ==> rs[k].Ok?
    ensures r.Ok? ==> |r.value| == |rs| && forall k :: 0 <= k < |rs| ==> rs[k] == Ok(r.value[k])
    ensures r.Err? ==> exists k :: 0 <= k < |rs| && rs[k] == Err(r.error)
    decreases |rs|
  {
    if rs == [] then Ok([])
    else
      var init := rs[..|rs| - 1];
      assert forall k :: 0 <= k < |init| ==> init[k] == rs[k];
      var vs :- AllOk(init);
      var last :- rs[|rs| - 1];
      Ok(vs + [last])
  }

  /** The first failed result decides the error. */
  lemma {:induction false} AllOkFails<T>(rs: seq<Result<T>>, i: nat)
    requires i < |rs| && rs[i].Err? && AllOk(rs[..i]).Ok?
    ensures AllOk(rs) == Err(rs[i].error)
    decreases |rs|
  {
    var init := rs[..|rs| - 1];
    if i < |rs| - 1 {
      assert init[..i] == rs[..i];
      AllOkFails(init, i);
    } else {
      assert init == rs[..i];
    }
  }

  /** One more successful result extends the values. */
  lemma AllOkStep<T>(rs: seq<Result<T>>, i: nat, vs: seq<T>, v: T)
    requires i < |rs| && AllOk(rs[..i]) == Ok(vs) && rs[i] == Ok(v)
    ensures AllOk(rs[..i + 1]) == Ok(vs + [v])
  {
    assert rs[..i + 1][..i] == rs[..i];
  }

  /** `f` applied to each element, in order. */
  function MapResults<A, B>(xs: seq<A>, f: A -> Result<B>): (rs: seq<Result<B>>)
    ensures |rs| == |xs| && forall k :: 0 <= k < |xs| ==> rs[k] == f(xs[k])
  {
    seq(|xs|, k requires 0 <= k < |xs| => f(xs[k]))
  }

  /** Applies `f` to each element in turn and stops at the first failure. */
  method MapOk<A, B>(xs: seq<A>, f: A -> Result<B>) returns (r: Result<seq<B>>)
    ensures r == AllOk(MapResults(xs, f))
  {
    ghost var rs := MapResults(xs, f);
    var vs: seq<B> := [];
    for i := 0 to |xs|
      invariant AllOk(rs[..i]) == Ok(vs)
    {
      var x := f(xs[i]);
      if x.Err? {
        AllOkFails(rs, i);
        return Err(x.error);
      }
      AllOkStep(rs, i, vs, x.value);
      vs := vs + [x.value];
    }
    assert rs[..|xs|] == rs;
    return Ok(vs);
  }

  /** The values of a list of results, each a list, concatenated in order, or the error of the first that failed. */
  function ConcatOk<T>(rs: seq<Result<seq<T>>>): (r: Result<seq<T>>)
    decreases |rs|
  {
    if rs == [] then Ok([])
    else
      var vs :- ConcatOk(rs[..|rs| - 1]);
      var last :- rs[|rs| - 1];
      Ok(vs + last)
  }

  /** The concatenation succeeds exactly when every result does, and otherwise fails with one of their errors. */
  lemma {:induction false} ConcatOkMeaning<T>(rs: seq<Result<seq<T>>>)
    ensures ConcatOk(rs).Ok? <==> forall k :: 0 <= k < |rs| ==> rs[k].Ok?
    ensures ConcatOk(rs).Err? ==> exists k :: 0 <= k < |rs| && rs[k] == Err(ConcatOk(rs).error)
    decreases |rs|
  {
    if rs != [] {
      var init := rs[..|rs| - 1];
      assert forall k :: 0 <= k < |init| ==> init[k] == rs[k];
      ConcatOkMeaning(init);
    }
  }

  /** The first failed result decides the error. */
  lemma {:induction false} ConcatOkFails<T>(rs: seq<Result<seq<T>>>, i: nat)
    requires i < |rs| && rs[i].Err? && ConcatOk(rs[..i]).Ok?
    ensures ConcatOk(rs) == Err(rs[i].error)
    decreases |rs|
  {
    var init := rs[..|rs| - 1];
    if i < |rs| - 1 {
      assert init[..i] == rs[..i];
      ConcatOkFails(init, i);
    } else {
      assert init == rs[..i];
    }
  }

  /** One more successful result extends the values. */
  lemma ConcatOkStep<T>(rs: seq<Result<seq<T>>>, i: nat, vs: seq<T>, v: seq<T>)
    requires i < |rs| && ConcatOk(rs[..i]) == Ok(vs) && rs[i] == Ok(v)
    ensures ConcatOk(rs[..i + 1]) == Ok(vs + v)
  {
    assert rs[..i + 1][..i] == rs[..i];
  }

  /** Results that are the singletons of `xs` concatenate to `xs`. */
  lemma {:induction false} ConcatOkSingletons<T>(rs: seq<Result<seq<T>>>, xs: seq<T>)
    requires |rs| == |xs| && forall k :: 0 <= k < |rs| ==> rs[k] == Ok([xs[k]])
    ensures ConcatOk(rs) == Ok(xs)
    decreases |rs|
  {
    if rs != [] {
      var n := |rs| - 1;
      ConcatOkSingletons(rs[..n], xs[..n]);
      assert xs[..n] + [xs[n]] == xs;
    }
  }

  /** Every element of a successful concatenation comes from one of the results. */
  lemma {:induction false} ConcatOkFrom<T>(rs: seq<Result<seq<T>>>, x: T)
    requires ConcatOk(rs).Ok? && x in ConcatOk(rs).value
    ensures exists k :: 0 <= k < |rs| && rs[k].Ok? && x in rs[k].value
    decreases |rs|
  {
    var n := |rs| - 1;
    var init := rs[..n];
    var vs := ConcatOk(init).value;
    if x in vs {
      ConcatOkFrom(init, x);
      var k :| 0 <= k < |init| && init[k].Ok? && x in init[k].value;
      assert rs[k] == init[k];
    } else {
      assert x in rs[n].value;
    }
  }
}
