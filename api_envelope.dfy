/** The uniform `ApiResponse` envelope and the `handleApiResponse` helper
    that every data-access operation returns through. */
module ApiEnvelope {
  import opened Wrappers
  import opened SupabaseTypes

  /** `{ data: T | null, error: string | null, success: boolean }` */
  datatype ApiResponse<T> = ApiResponse(data: Option<T>, error: Option<string>, success: bool)

  /** What a UI caller's `await` on a service yields: the envelope, or an
      exception thrown past it. */
  datatype Awaited<T> = Returned(response: ApiResponse<T>) | Threw

  /** `response.success && response.data`: the check the UI makes before it
      uses what a call returned. */
  predicate Delivered<T>(result: Awaited<T>) {
    result.Returned? && result.response.success && result.response.data.Some?
  }

  const UnknownErrorMessage: string := "An unknown error occurred"

  /** The envelope invariant every operation keeps: success exactly when there
      is no error, and a failure carries no data and a non-empty message. */
  ghost predicate WellFormed<T>(r: ApiResponse<T>) {
    && (r.success <==> r.error.None?)
    && (!r.success ==> r.data.None? && r.error.value != "")
  }

  /** `error.message || 'An unknown error occurred'` */
  function ErrorText(e: StoreError): (text: string)
    ensures text != ""
    ensures e.message != "" ==> text == e.message
    ensures e.message == "" ==> text == UnknownErrorMessage
  {
    if e.message != "" then e.message else UnknownErrorMessage
  }

  /** `handleApiResponse(data, error)`: a truthy error gives a failure
      envelope, otherwise `data` is passed through unchanged. */
  function HandleApiResponse<T>(data: Option<T>, error: Option<StoreError>): (r: ApiResponse<T>)
    ensures WellFormed(r)
    ensures error.Some? ==> r.data.None? && !r.success && r.error == Some(ErrorText(error.value))
    ensures error.None? ==> r.success && r.error.None? && r.data == data
  {
    if error.Some? then
      ApiResponse(None, Some(ErrorText(error.value)), false)
    else
      ApiResponse(data, None, true)
  }

  /** The body shared by the operations that return what the store sends:
      `try { const { data, error } = await ...; return handleApiResponse(data, error) }
       catch (error) { return handleApiResponse(null, error) }`. */
  function Respond<T>(reply: Reply<T>): (r: ApiResponse<T>)
    ensures WellFormed(r)
    ensures r.success <==> reply.Answered?
    ensures reply.Answered? ==> r.data == Some(reply.data)
    ensures !reply.Answered? ==> r.error == Some(ErrorText(reply.Failure()))
  {
    match reply
    case Answered(data) => HandleApiResponse(Some(data), None)
    case Rejected(error) => HandleApiResponse(None, Some(error))
    case Raised(exception) => HandleApiResponse(None, Some(exception))
  }

  /** The body shared by the deletes: only `error` is read from the answer,
      and `handleApiResponse(null, error)` is returned on every path. */
  function RespondNull<T>(reply: Reply<T>): (r: ApiResponse<()>)
    ensures WellFormed(r)
    ensures r.data.None?
    ensures r.success <==> reply.Answered?
    ensures !reply.Answered? ==> r.error == Some(ErrorText(reply.Failure()))
  {
    match reply
    case Answered(_) => HandleApiResponse(None, None)
    case Rejected(error) => HandleApiResponse(None, Some(error))
    case Raised(exception) => HandleApiResponse(None, Some(exception))
  }

  /** A null-data envelope reports success and error exactly as the
      data-carrying envelope of the same answer would. */
  lemma RespondNullAgreesWithRespond<T>(reply: Reply<T>)
    ensures RespondNull(reply).success == Respond(reply).success
    ensures RespondNull(reply).error == Respond(reply).error
  {
  }

  /** `response.error || fallback`, as the pages read a failed envelope. */
  function MessageOr(error: Option<string>, fallback: string): (message: string)
    ensures error.Some? && error.value != "" ==> message == error.value
    ensures (error.None? || error.value == "") ==> message == fallback
  {
    if error.Some? && error.value != "" then error.value else fallback
  }
}
