/** The span model of model/span.go and its parts. */
module Spans {
  import opened Hex
  import opened Model

  type uint16 = n: int | 0 <= n < 0x1_0000
  type byte = n: int | 0 <= n < 0x100

  /** An instant, in nanoseconds since the Unix epoch. Go's zero time is the first of January of year 1. */
  type Time = int

  const ZERO_TIME: Time := -62135596800_000_000_000

  /** model.Kind: any string, these five have names. */
  type Kind = string

  const UNDETERMINED: Kind := ""
  const CLIENT: Kind := "CLIENT"
  const SERVER: Kind := "SERVER"
  const PRODUCER: Kind := "PRODUCER"
  const CONSUMER: Kind := "CONSUMER"

  datatype Annotation = Annotation(timestamp: Time, value: string)

  datatype Endpoint = Endpoint(serviceName: string, ipv4: seq<byte>, ipv6: seq<byte>, port: uint16)

  /** A span; nil and empty slices or maps are one value here. */
  datatype SpanModel = SpanModel(
    ctx: SpanContext,
    name: string,
    kind: Kind,
    timestamp: Time,
    duration: int64,
    shared: bool,
    localEndpoint: Option<Endpoint>,
    remoteEndpoint: Option<Endpoint>,
    annotations: seq<Annotation>,
    tags: map<string, string>)
}
