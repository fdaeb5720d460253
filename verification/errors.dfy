/** The failures a request can run into, from the REST client up to the route handlers. */
module Errors {
  import opened Wrappers

  /** The structured error body the REST backend returns on a failed mutation. */
  datatype ApiError = ApiError(
    message: string,
    code: string,
    details: Option<string>,
    hint: Option<string>
  )

  /** What the REST client reports. */
  datatype BackendError =
    | Transport                          // the HTTP exchange itself failed
    | Status(code: nat)                  // a read got a non-2xx status
    | Api(payload: Option<ApiError>)     // a write got a non-2xx status, with the parsed body if any
    | Decode                             // a 2xx body that is not the expected JSON

  /**
   * An error as the handlers see it. `Message` covers every error whose
   * displayed text is fixed by the server itself (a bail, a public error,
   * or a context string wrapped around a lower error).
   */
  datatype Error =
    | Message(text: string)
    | Backend(cause: BackendError)
    | FormRejected                       // the form body did not decode into the expected fields
    | TokenRejected                      // the token's signature did not verify
}
