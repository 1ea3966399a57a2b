/** `opentelemetry_protocol_parser` of src/main.rs: reads the trace exporter protocol from
    a command-line argument or environment variable. */
module Telemetry {
  import opened Wrappers

  datatype OpenTelemetryProtocol = Grpc | HttpBinary

  const InvalidProtocol := "invalid exporter protocol, must be one of: 'grpc' or 'http/protobuf'"

  /** The argument's default value. */
  const DefaultProtocol := "grpc"

  function LowerChar(c: char): char {
    if 'A' <= c <= 'Z' then (c as int + 32) as char else c
  }

  /** Lower-cases the ASCII letters of `s` and keeps every other character. */
  function ToLower(s: string): (r: string)
    ensures |r| == |s|
    ensures forall i | 0 <= i < |s| :: r[i] == LowerChar(s[i])
    decreases |s|
  {
    if s == [] then [] else [LowerChar(s[0])] + ToLower(s[1..])
  }

  /** Lower-casing twice is lower-casing once. */
  lemma {:induction false} ToLowerIdempotent(s: string)
    ensures ToLower(ToLower(s)) == ToLower(s)
    decreases |s|
  {
    if s != [] {
      ToLowerIdempotent(s[1..]);
      assert ToLower(s)[1..] == ToLower(s[1..]);
    }
  }

  /** Accepts "grpc", "http" and "http/protobuf" in any mix of cases. */
  function ParseProtocol(raw: string): (r: Result<OpenTelemetryProtocol, string>)
    ensures r == Ok(Grpc) <==> ToLower(raw) == "grpc"
    ensures r == Ok(HttpBinary) <==> ToLower(raw) == "http" || ToLower(raw) == "http/protobuf"
    ensures r.Err? <==> ToLower(raw) !in {"grpc", "http", "http/protobuf"}
    ensures r.Err? ==> r.error == InvalidProtocol
  {
    match ToLower(raw)
    case "grpc" => Ok(Grpc)
    case "http" => Ok(HttpBinary)
    case "http/protobuf" => Ok(HttpBinary)
    case _ => Err(InvalidProtocol)
  }

  /** The parser cannot tell an argument from its lower-cased form. */
  lemma ParseCaseInsensitive(raw: string)
    ensures ParseProtocol(raw) == ParseProtocol(ToLower(raw))
  {
    ToLowerIdempotent(raw);
  }

  /** The default value parses. */
  lemma DefaultParses()
    ensures ParseProtocol(DefaultProtocol) == Ok(Grpc)
  {
    LowerCaseUnchanged(DefaultProtocol);
  }

  /** An upper-case spelling parses like the lower-case one. */
  lemma UpperCaseParses()
    ensures ParseProtocol("GRPC") == Ok(Grpc)
    ensures ParseProtocol("HTTP") == Ok(HttpBinary)
  {
    var g := ToLower("GRPC");
    assert g[0] == 'g' && g[1] == 'r' && g[2] == 'p' && g[3] == 'c';
    assert g == "grpc";
    var h := ToLower("HTTP");
    assert h[0] == 'h' && h[1] == 't' && h[2] == 't' && h[3] == 'p';
    assert h == "http";
  }

  /** A string without upper-case ASCII letters is its own lower-cased form. */
  lemma LowerCaseUnchanged(s: string)
    requires forall i | 0 <= i < |s| :: !('A' <= s[i] <= 'Z')
    ensures ToLower(s) == s
  {
  }
}
