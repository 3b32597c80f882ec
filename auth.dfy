/** The `authenticateApiKey` middleware: the `x-api-key` header must equal
    the configured key exactly. */
module Auth {
  import opened Outcomes

  const DefaultKey := "your-secret-api-key"

  const UnauthorizedMessage := "Unauthorized: Invalid or missing API key."

  /** `process.env.API_KEY || 'your-secret-api-key'`: the environment value
      when it is set and non-empty, the fixed default otherwise. */
  function ExpectedKey(env: Option<string>): (key: string)
    ensures key != ""
    ensures env.Some? && env.value != "" ==> key == env.value
    ensures env.None? || env.value == "" ==> key == DefaultKey
  {
    if env.Some? && env.value != "" then env.value else DefaultKey
  }

  /** JavaScript's `!apiKey` for a header value: absent or empty. */
  predicate Missing(header: Option<string>)
  {
    header.None? || header.value == ""
  }

  /** `if (!apiKey || apiKey !== EXPECTED_API_KEY) next(new UnauthorizedError(…))`.
      The request passes exactly when the header holds the expected key; so a
      missing or empty header is always refused. */
  function Authenticate(header: Option<string>, env: Option<string>): (r: Check)
    ensures r == Pass <==> header == Some(ExpectedKey(env))
    ensures r != Pass ==> r == Reject(Unauthorized(UnauthorizedMessage))
    ensures Missing(header) ==> r != Pass
  {
    if Missing(header) || header.value != ExpectedKey(env) then Reject(Unauthorized(UnauthorizedMessage))
    else Pass
  }

  /** With no key configured, only the default key is let through. */
  lemma DefaultKeyOnly(header: Option<string>)
    ensures Authenticate(header, None) == Pass <==> header == Some(DefaultKey)
    ensures Authenticate(header, Some("")) == Authenticate(header, None)
  {
  }
}
