/**
 * The error code `unexpectedError` shows when saving an edit fails: the first
 * non-empty code among the API response's first error, then the error's own
 * extensions, falling back to `UNKNOWN`.
 */
module UnexpectedError {
  import opened Wrappers

  datatype Extensions = Extensions(code: Option<string>)
  datatype ErrorEntry = ErrorEntry(extensions: Option<Extensions>)
  datatype ResponseData = ResponseData(errors: Option<seq<ErrorEntry>>)
  datatype Response = Response(data: Option<ResponseData>)

  /** A thrown request error, reduced to the parts the code lookup reads. */
  datatype RequestError = RequestError(response: Option<Response>, extensions: Option<Extensions>)

  /** `error.response?.data?.errors?.[0]?.extensions?.code`. */
  function ResponseCode(e: RequestError): Option<string> {
    if e.response.Some? && e.response.value.data.Some? && e.response.value.data.value.errors.Some?
       && |e.response.value.data.value.errors.value| > 0
       && e.response.value.data.value.errors.value[0].extensions.Some?
    then e.response.value.data.value.errors.value[0].extensions.value.code
    else None
  }

  /** `error?.extensions?.code`. */
  function OwnCode(e: RequestError): Option<string> {
    if e.extensions.Some? then e.extensions.value.code else None
  }

  /** A code JavaScript treats as true: present and not empty. */
  predicate Truthy(code: Option<string>) {
    code.Some? && code.value != ""
  }

  /** The `code` computed in `unexpectedError`. */
  function ErrorCode(e: RequestError): (code: string)
    ensures code != ""
    ensures Truthy(ResponseCode(e)) ==> code == ResponseCode(e).value
    ensures !Truthy(ResponseCode(e)) && Truthy(OwnCode(e)) ==> code == OwnCode(e).value
    ensures !Truthy(ResponseCode(e)) && !Truthy(OwnCode(e)) ==> code == "UNKNOWN"
  {
    if Truthy(ResponseCode(e)) then ResponseCode(e).value
    else if Truthy(OwnCode(e)) then OwnCode(e).value
    else "UNKNOWN"
  }

  /**
   * Only the response's first error entry and the error's own extensions
   * decide the code: further entries and an empty response do not.
   */
  lemma ErrorCodeReadsFirstEntry(first: ErrorEntry, rest: seq<ErrorEntry>, own: Option<Extensions>)
    ensures var withRest := RequestError(Some(Response(Some(ResponseData(Some([first] + rest))))), own);
            var alone := RequestError(Some(Response(Some(ResponseData(Some([first]))))), own);
            ErrorCode(withRest) == ErrorCode(alone)
    ensures ErrorCode(RequestError(Some(Response(Some(ResponseData(Some([]))))), own)) == ErrorCode(RequestError(None, own))
    ensures ErrorCode(RequestError(Some(Response(None)), own)) == ErrorCode(RequestError(None, own))
  {
    assert ([first] + rest)[0] == first;
  }
}
