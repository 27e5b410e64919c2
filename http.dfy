/** The slice of `net/http` the model needs: header sets and responses. */
module Http {

  /** An `http.Header`: canonical header key to its list of values. */
  type Headers = map<string, seq<string>>

  /** A response, as far as the rate-limit code looks at it. */
  datatype Response = Response(header: Headers)

  /** `http.Header.Get` on a canonical key: the first value, or "" when the key
      is absent or has no values. */
  function Get(h: Headers, key: string): string
  {
    if key in h && h[key] != [] then h[key][0] else ""
  }
}
