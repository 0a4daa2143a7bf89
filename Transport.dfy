/** The two capabilities the navigator consumes but does not define: the
    authenticated HTTP exchange (UrlConnectionHandler) and the JSON decoder of
    a page body (the mappers). Both are stand-ins; the world they read is a
    value passed to every call. */
module Transport {
  import opened Wrappers

  /** Response header fields as URLConnection.getHeaderFields presents them:
      a field name maps to its list of values, and a value may be null. */
  type Headers = map<string, seq<Option<string>>>

  /** What reading and decoding a response body gives. */
  datatype Body<T> = Decoded(entries: seq<T>) | Unreadable | Undecodable

  /** One answered request. */
  datatype Reply<T> = Reply(headers: Headers, body: Body<T>)

  /** The server as the client sees it at one moment: a URL it answers maps
      to its reply; a URL it does not answer (unreachable host, failed
      connection, error status) is absent. */
  type Server<T> = map<string, Reply<T>>

  /** Why loading a page failed; each is an exception in the source that
      leaves the navigator untouched. */
  datatype FetchError =
    | MalformedUrl        // new URL(null): the page has no such link
    | ConnectionFailed    // the server did not answer the URL
    | MissingLinkValue    // a "Link" field whose value list is empty
    | UnreadableBody      // reading the body failed
    | UndecodableBody     // the mapper rejected the body

  /** Opens the authenticated connection for `url`. */
  function Fetch<T>(server: Server<T>, url: Option<string>): Result<Reply<T>, FetchError>
  {
    match url
    case None => Err(MalformedUrl)
    case Some(u) => if u in server then Ok(server[u]) else Err(ConnectionFailed)
  }

  /** Reads and maps the body of a reply. */
  function Decode<T>(body: Body<T>): Result<seq<T>, FetchError>
  {
    match body
    case Decoded(entries) => Ok(entries)
    case Unreadable => Err(UnreadableBody)
    case Undecodable => Err(UndecodableBody)
  }
}
