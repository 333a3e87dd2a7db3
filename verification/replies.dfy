/** Values shared by every handler: an optional value and the JSON reply
    `{ message, status, ...payload }` together with its HTTP status code. */
module Replies {

  datatype Option<+T> = None | Some(value: T)

  /** A handler's reply. `status` is the boolean flag every JSON body
      carries; `payload` holds the extra fields of a successful reply. */
  datatype Response<+P> = Response(code: nat, status: bool, message: string, payload: Option<P>)

  /** The message of every reply produced by a handler's `catch` block. */
  const SomethingWentWrong: string := "Something went wrong!"

  /** A successful reply (HTTP 200, `status: true`). */
  function Ok<P>(message: string, payload: Option<P>): Response<P>
  {
    Response(200, true, message, payload)
  }

  /** A refusal the handler reports itself (HTTP 200, `status: false`). */
  function Refuse<P>(message: string): Response<P>
  {
    Response(200, false, message, None)
  }

  /** A refusal with a code other than 200 (for instance a 404). */
  function RefuseWith<P>(code: nat, message: string): Response<P>
  {
    Response(code, false, message, None)
  }

  /** The reply of a handler whose body threw: HTTP 500, generic message. */
  function Fault<P>(): Response<P>
  {
    Response(500, false, SomethingWentWrong, None)
  }
}
