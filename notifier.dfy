/** The branch structure of `request(url, method, payload)`: which HTTP
    request it sends. Sessions, retries, timeouts and the response itself
    are outside the model. */
module Notifier {
  import opened Common

  datatype HttpRequest = Get(url: string) | Post(url: string, json: Option<string>)

  /** Why `request` ends without a response: with no url, or with a method
      other than GET, POST or None, no branch binds `res`, so `return res`
      raises UnboundLocalError. */
  datatype NoResponse = NoUrl | UnsupportedMethod(verb: string)

  function Dispatch(url: Option<string>, verb: Option<string>, payload: Option<string>): (r: Result<HttpRequest, NoResponse>)
    ensures url.None? ==> r == Err(NoUrl)
    ensures url.Some? && (verb.None? || verb == Some("GET")) ==> r == Ok(Get(url.value))
    ensures url.Some? && verb == Some("POST") ==> r == Ok(Post(url.value, payload))
    ensures url.Some? && verb.Some? && verb.value != "GET" && verb.value != "POST" ==> r == Err(UnsupportedMethod(verb.value))
    ensures r.Err? ==> url.None? || (verb.Some? && verb.value != "GET" && verb.value != "POST")
    ensures r.Ok? ==> r.value.url == url.value
    ensures r.Ok? && r.value.Get? ==> verb.None? || verb == Some("GET")
  {
    if url.None? then Err(NoUrl)
    else if verb == Some("GET") || verb.None? then Ok(Get(url.value))
    else if verb == Some("POST") then Ok(Post(url.value, payload))
    else Err(UnsupportedMethod(verb.value))
  }
}
