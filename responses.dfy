/** EmailService.DTO.Response.Response<T>, the JSON envelope every endpoint answers with.
    A field the constructor leaves alone keeps its C# default: false, 0, or null. Null is
    `None`; for `Data`, `None` stands for default(T), which is null for the `Response<string>`
    the service uses. */
module Responses {

  import opened Exceptions

  datatype Response<T> = Response(
    succeeded: bool,
    code: int,
    message: Option<string>,
    errors: Option<seq<string>>,
    data: Option<T>)

  /** The HTTP status codes the core writes. */
  const OK := 200
  const InternalServerError := 500

  /** `new Response<T>()`: every field at its default. */
  function Empty<T>(): (r: Response<T>)
    ensures !r.succeeded && r.code == 0
    ensures r.message.None? && r.errors.None? && r.data.None?
  {
    Response(false, 0, None, None, None)
  }

  /** `new Response<T>(data, message = "Success")`: a success envelope carrying `data`. */
  function WithData<T>(data: T, message: string := "Success"): (r: Response<T>)
    ensures r.succeeded && r.code == OK
    ensures r.message == Some(message) && r.data == Some(data)
    ensures r.errors.None?
  {
    Response(true, OK, Some(message), None, Some(data))
  }

  /** `new Response<T>(message, code, succeeded)`: only these three fields are set. */
  function WithCode<T>(message: string, code: int, succeeded: bool): (r: Response<T>)
    ensures r.succeeded == succeeded && r.code == code && r.message == Some(message)
    ensures r.errors.None? && r.data.None?
  {
    Response(succeeded, code, Some(message), None, None)
  }

  /** `new Response<T>(message, succeeded, code, errors = null)`: `errors` is stored as
      given, null included. */
  function WithErrors<T>(message: string, succeeded: bool, code: int, errors: Option<seq<string>> := None): (r: Response<T>)
    ensures r.succeeded == succeeded && r.code == code && r.message == Some(message)
    ensures r.errors == errors && r.data.None?
  {
    Response(succeeded, code, Some(message), errors, None)
  }

  /** `new Response<T>(message, succeeded, code)`: C# prefers this overload to the one whose
      fourth parameter is optional, and it sets Errors to a fresh empty list. */
  function WithEmptyErrors<T>(message: string, succeeded: bool, code: int): (r: Response<T>)
    ensures r.succeeded == succeeded && r.code == code && r.message == Some(message)
    ensures r.errors == Some([]) && r.data.None?
  {
    Response(succeeded, code, Some(message), Some([]), None)
  }

  /** A one-string call on `Response<string>` binds to the data constructor: the string
      becomes Data and the message is "Success". */
  lemma OneStringIsData(s: string)
    ensures WithData(s).data == Some(s)
    ensures WithData(s).message == Some("Success")
    ensures s != "Success" ==> WithData(s).message != Some(s)
  {
  }

  /** The three-argument (message, succeeded, code) call and the four-argument call with
      its default differ exactly in Errors: an empty list against null. */
  lemma ThreeArgumentOverloadHasEmptyErrors<T>(message: string, succeeded: bool, code: int)
    ensures WithEmptyErrors<T>(message, succeeded, code).errors == Some([])
    ensures WithErrors<T>(message, succeeded, code).errors.None?
    ensures WithEmptyErrors<T>(message, succeeded, code)
         == WithErrors<T>(message, succeeded, code, Some([]))
  {
  }
}
