/** The responses the HTTP routes send, with JSON bodies. */
module Http {
  import opened JsonValue

  /** A status code and a JSON body, or no response at all (the request is left hanging). */
  datatype Response = Response(status: nat, body: Json) | NoResponse

  /** `{ error: message }`. */
  function ErrorBody(message: string): Json {
    JObj([Field("error", JStr(message))])
  }
}
