/** The success-or-failure value that registration returns instead of throwing
    (App/Result.ts). A result is `Ok(value)` or `Fail(error)` and nothing else;
    asking a result for the side it does not hold is a programming error, so
    the accessors carry it as a precondition. */
module Results {

  datatype Result<+T, +E> = Ok(okValue: T) | Fail(error: E) {

    /** True exactly for the success variant. */
    function IsOk(): (b: bool)
      ensures b <==> Ok?
    {
      match this
      case Ok(_) => true
      case Fail(_) => false
    }

    /** True exactly when `IsOk` is false: the two queries never agree. */
    function IsErr(): (b: bool)
      ensures b <==> !IsOk()
      ensures b <==> Fail?
    {
      match this
      case Ok(_) => false
      case Fail(_) => true
    }

    /** The value a success was built with; misuse on a failure is excluded. */
    function Value(): (v: T)
      requires IsOk()
      ensures Ok(v) == this
    {
      okValue
    }

    /** The error a failure was built with; misuse on a success is excluded. */
    function Err(): (e: E)
      requires IsErr()
      ensures Fail(e) == this
    {
      error
    }
  }

  /** Exactly one of `IsOk` and `IsErr` holds: `Ok` answers (true, false),
      `Fail` answers (false, true). */
  lemma ExactlyOneVariant<T, E>(r: Result<T, E>)
    ensures r.IsOk() != r.IsErr()
    ensures r.Ok? ==> r.IsOk() && !r.IsErr()
    ensures r.Fail? ==> !r.IsOk() && r.IsErr()
  {
  }

  /** Constructing a success and reading it back gives the original value. */
  lemma ValueRoundTrip<T, E>(v: T)
    ensures Result<T, E>.Ok(v).IsOk()
    ensures Result<T, E>.Ok(v).Value() == v
  {
  }

  /** Constructing a failure and reading it back gives the original error. */
  lemma ErrRoundTrip<T, E>(e: E)
    ensures Result<T, E>.Fail(e).IsErr()
    ensures Result<T, E>.Fail(e).Err() == e
  {
  }
}
