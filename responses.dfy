/** The HTTP outcomes the controllers return (`ResponseEntity`): the status,
    and the body where the code sets one. */
module Responses {
  import opened Wrappers

  datatype Response<T> =
    | Ok(body: T)                        // 200 with a body
    | OkEmpty                            // 200 with no body
    | Created(body: T)                   // 201
    | NoContent                          // 204
    | BadRequest(message: Option<string>)  // 400, with the body text if any
    | Unauthorized(reason: string)       // 401
    | NotFound                           // 404
    | Conflict                           // 409
    | InternalError                      // 500

  /** The value of `payload.get(key)` for a JSON object of strings: null when
      the key is missing or holds null. */
  function Lookup(payload: map<string, Option<string>>, key: string): (v: Option<string>)
    ensures v.Some? <==> key in payload && payload[key].Some?
    ensures v.Some? ==> v.value == payload[key].value
  {
    if key in payload then payload[key] else None
  }
}
