/** Outgoing requests to the GitHub REST API, recorded instead of performed. */
module Http {
  import opened Wrappers
  import opened Json

  datatype Verb = HttpGet | HttpPost

  /** `path` is relative to `https://api.github.com`; `payload` is the JSON body of a POST. */
  datatype Request = Request(verb: Verb, path: string, payload: Option<Json>)

  /** The outcome of one upstream call: a non-2xx status, or the decoded body. */
  datatype Reply<T> = Failed(status: int) | Ok(payload: T)
}
