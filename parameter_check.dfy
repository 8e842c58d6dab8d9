/** The guard helpers that raise the argument errors of every other module. */
module ParameterCheck {
  import opened Wrappers
  import opened Text

  /** The two exceptions the guards throw, each carrying the text the caller supplied. */
  datatype CheckError =
    | ArgumentException(message: string)
    | ArgumentNullException(paramName: string)

  /**
   * `parameter.IsNotNullOrWhitespace(errorMsg)`: passes exactly when the string exists and holds
   * at least one character that is not white space; otherwise an `ArgumentException(errorMsg)`.
   */
  function IsNotNullOrWhitespace(parameter: Option<string>, errorMsg: string): (r: Outcome<CheckError>)
    ensures r.Pass? <==> parameter.Some? && exists i :: 0 <= i < |parameter.value| && !IsWhiteSpace(parameter.value[i])
    ensures r.Fail? ==> r.error == ArgumentException(errorMsg)
  {
    if IsNullOrWhiteSpace(parameter) then Fail(ArgumentException(errorMsg)) else Pass
  }

  /** `parameter.IsNotNull(errorMsg)`: an `ArgumentNullException` exactly when the argument is null. */
  function IsNotNull<T>(parameter: Option<T>, errorMsg: string): (r: Outcome<CheckError>)
    ensures r.Fail? <==> parameter.None?
    ensures r.Fail? ==> r.error == ArgumentNullException(errorMsg)
  {
    if parameter.None? then Fail(ArgumentNullException(errorMsg)) else Pass
  }

  /** Null, empty and all-white-space strings are refused; one visible character is enough to pass. */
  lemma IsNotNullOrWhitespaceCases(errorMsg: string)
    ensures IsNotNullOrWhitespace(None, errorMsg) == Fail(ArgumentException(errorMsg))
    ensures IsNotNullOrWhitespace(Some(""), errorMsg).Fail?
    ensures IsNotNullOrWhitespace(Some(" \t\r\n"), errorMsg).Fail?
    ensures IsNotNullOrWhitespace(Some(" a "), errorMsg) == Pass
  {
    assert !IsWhiteSpace(" a "[1]);
  }
}
