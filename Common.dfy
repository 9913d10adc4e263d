/**
 * The result envelope every handler returns (BlogSystem.Domain/Common/Result.cs).
 * The C# class has private setters and a protected constructor, so the two
 * static factories are the only way to build one and nothing is reassigned
 * afterwards; a Dafny datatype value is immutable in the same way.
 */
module Common {
  import opened Wrappers

  datatype Result<T> = Result(
    IsSuccess: bool,
    Data: Option<T>,
    Message: string,
    Errors: seq<string>,
    StatusCode: int)

  /** The two shapes the factories can produce. */
  predicate FromFactory<T>(r: Result<T>)
  {
    if r.IsSuccess then r.Data.Some? && r.Errors == [] else r.Data.None?
  }

  /** Result<T>.Success: data and message kept as given, no errors, no range check on the status. */
  function Success<T>(data: T, message: string := "Success", statusCode: int := 200): (r: Result<T>)
    ensures FromFactory(r) && r.IsSuccess
    ensures r.Data == Some(data) && r.Message == message && r.StatusCode == statusCode
  {
    Result(true, Some(data), message, [], statusCode)
  }

  /** Result<T>.Failure: no data; errors stored exactly as given, even when empty. */
  function Failure<T>(errors: seq<string>, statusCode: int := 400, message: string := "Operation failed"): (r: Result<T>)
    ensures FromFactory(r) && !r.IsSuccess
    ensures r.Errors == errors && r.Message == message && r.StatusCode == statusCode
  {
    Result(false, None, message, errors, statusCode)
  }

  /** The defaults of Success: message "Success", status 200. */
  lemma SuccessDefaults<T>(data: T)
    ensures Success(data).Message == "Success" && Success(data).StatusCode == 200
  {
  }

  /** The defaults of Failure: status 400, message "Operation failed". */
  lemma FailureDefaults<T>(errors: seq<string>)
    ensures Failure<T>(errors).StatusCode == 400 && Failure<T>(errors).Message == "Operation failed"
  {
  }

  /**
   * The factories are the only construction path: every envelope of a factory
   * shape is rebuilt exactly by the factory for its kind from its own fields.
   */
  lemma FactoryShapeIsComplete<T>(r: Result<T>)
    requires FromFactory(r)
    ensures r.IsSuccess ==> r == Success(r.Data.value, r.Message, r.StatusCode)
    ensures !r.IsSuccess ==> r == Failure(r.Errors, r.StatusCode, r.Message)
  {
  }

  /** A failure with an empty error list is accepted as it is. */
  lemma EmptyFailureAccepted<T>(statusCode: int, message: string)
    ensures var r := Failure<T>([], statusCode, message); !r.IsSuccess && r.Errors == [] && FromFactory(r)
  {
  }
}
