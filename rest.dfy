/** Route literals and the HTTP outcome of a handler. */
module Rest {
  import opened Wrappers

  const Slash := "/"
  const RouteRank := "/rank"

  const StatusOK := 200
  const StatusAccepted := 202
  const StatusBadRequest := 400
  const StatusNotFound := 404
  const StatusInternalServerError := 500

  /** What a handler writes: an error status with its message (`http.Error`,
      `http.NotFound`), or a status with an optional JSON payload. */
  datatype Response<T> =
    | Fail(status: int, message: string)
    | Reply(status: int, payload: Option<T>)

  /** Go's `strings.HasPrefix`. */
  predicate HasPrefix(s: string, prefix: string)
    ensures HasPrefix(s, prefix) ==> |prefix| <= |s| && s == prefix + s[|prefix|..]
  {
    |prefix| <= |s| && s[..|prefix|] == prefix
  }
}
