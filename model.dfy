/**
  The data of the token-validation filter: its error taxonomy, the decoded
  introspection response, the configuration, the introspection request it
  builds, and the capabilities (token extractor, form encoder, HTTP
  transport, JSON decoder, clock) that a single request evaluation consumes.
 */
module Model {
  import opened Results

  /** Rust's `u64`: the width of the `exp` and `nbf` claims and of the clock reading. */
  type U64 = x: int | 0 <= x < 0x1_0000_0000_0000_0000

  type Byte = b: int | 0 <= b < 256

  /** Opaque detail text carried by transport and decoding errors. */
  type Detail = string

  /** Why a request is not allowed to continue. */
  datatype FilterError =
    | Unexpected
    | NoToken
    | InactiveToken
    | ExpiredToken
    | NotYetActive
    | ClientError(clientDetail: Detail)
    | NonParsableIntrospectionBody(parseDetail: Detail)

  /** The members of an introspection response that the filter reads (RFC 7662, section 2.2). */
  datatype IntrospectionResponse = IntrospectionResponse(active: bool, exp: Option<U64>, nbf: Option<U64>)

  /** The filter's immutable configuration; the token extractor is represented by its result. */
  datatype Config = Config(upstream: string, host: string, path: string, authorization: string)

  type Header = (string, string)
  type FormField = (string, string)

  datatype Method = Post

  /** The introspection call as it is handed to the HTTP client (RFC 7662, section 2.1). */
  datatype IntrospectionRequest = IntrospectionRequest(
    upstream: string,
    host: string,
    path: string,
    verb: Method,
    headers: seq<Header>,
    body: string)

  /** What the transport hands back when the call completes. */
  datatype HttpResponse = HttpResponse(status: nat, body: seq<Byte>)

  /** The value the token extractor resolves: only a string is a usable token. */
  datatype ExtractedValue = StringValue(text: string) | NonStringValue

  /** The observable actions of one evaluation, in the order they happen. */
  datatype Effect = ResolveToken | SendIntrospection(request: IntrospectionRequest) | ReadClock

  /** A result together with the effects performed while computing it. */
  datatype Traced<T> = Traced(result: Result<T, FilterError>, effects: seq<Effect>)

  /**
    Everything outside the filter that one evaluation depends on:
    the extractor's answer for the incoming request, the form encoder,
    the HTTP transport, the JSON decoder and the clock reading
    (seconds since the UNIX epoch, or `None` when the clock is before it).
   */
  datatype Env = Env(
    extracted: Result<ExtractedValue, Detail>,
    encode: seq<FormField> -> Option<string>,
    send: IntrospectionRequest -> Result<HttpResponse, Detail>,
    parse: seq<Byte> -> Result<IntrospectionResponse, Detail>,
    clock: Option<U64>)
}
