/** The OpenTelemetry exporter settings read from the command line
    (common/src/logging.rs). Installing the tracing subscriber is not modelled. */
module Logging {
  import opened Common

  /** The OTLP transport protocols the exporter library offers. */
  datatype Protocol = Grpc | HttpBinary | HttpJson

  /** Where and how traces are exported. */
  datatype OpenTelemetry = OpenTelemetry(url: string, protocol: Protocol)

  /** `OpenTelemetry::new`: a configuration exactly when a URL is given. */
  function NewOpenTelemetry(url: Option<string>, protocol: Protocol): (r: Option<OpenTelemetry>)
    ensures r.None? <==> url.None?
    ensures r.Some? ==> r.value.url == url.value && r.value.protocol == protocol
  {
    match url
    case None => None
    case Some(u) => Some(OpenTelemetry(u, protocol))
  }

  const InvalidProtocol := "invalid exporter protocol, must be one of: 'grpc' or 'http/protobuf'"

  /** `opentelemetry_protocol_parser`: after lower-casing, "grpc" selects gRPC,
      "http" and "http/protobuf" select binary HTTP, and anything else is
      refused. JSON over HTTP is never chosen. */
  function ParseProtocol(raw: string): (r: Result<Protocol, string>)
    ensures r == Ok(Grpc) <==> Lower(raw) == "grpc"
    ensures r == Ok(HttpBinary) <==> Lower(raw) == "http" || Lower(raw) == "http/protobuf"
    ensures r != Ok(HttpJson)
    ensures r.Err? ==> r.error == InvalidProtocol
  {
    var lowered := Lower(raw);
    if lowered == "grpc" then Ok(Grpc)
    else if lowered == "http" || lowered == "http/protobuf" then Ok(HttpBinary)
    else Err(InvalidProtocol)
  }

  /** Lower-casing twice is lower-casing once. */
  lemma LowerIdempotent(s: string)
    ensures Lower(Lower(s)) == Lower(s)
  {
    LowerOfLowercase(Lower(s));
  }

  /** The parser ignores case: any spelling parses as its lower-case form. */
  lemma ParseIgnoresCase(raw: string)
    ensures ParseProtocol(raw) == ParseProtocol(Lower(raw))
  {
    LowerIdempotent(raw);
  }
}
