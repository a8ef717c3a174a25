/** The parts of the HTTP transport that the cache layer reads: the request
    method and URL, and what the server sent back. */
module Http {
  import opened Prelude

  const METHOD_GET: string := "GET"
  const HTTP_OK: int := 200
  const HTTP_NOT_MODIFIED: int := 304

  /** The server's answer: the status code (None when getResponseCode throws),
      the ETag response header (None when absent) and the body stream (None when
      getInputStream throws). */
  datatype Reply = Reply(status: Option<int>, etag: Option<string>, body: Option<seq<byte>>)

  /** A URLConnection as the cache sees it; `isHttp` says whether it is an
      HttpURLConnection. */
  datatype Connection = Connection(isHttp: bool, url: string, requestMethod: string, reply: Reply)
}
