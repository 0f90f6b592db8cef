/** JSON values as Jackson's JsonNode tree presents them to the core, and the accessor semantics
    (has, get, asInt, asText, isNull) the core relies on. Parsing, serialising and UTF-8
    coding are opaque library calls, carried as function values in a `Codec`. */
module Json {
  import opened Wrappers
  import opened Text

  /** A JSON tree. Object field order is not modelled. Numbers are integers. */
  datatype Json =
    | JNull
    | JBool(b: bool)
    | JNum(n: int)
    | JStr(s: string)
    | JArr(items: seq<Json>)
    | JObj(fields: map<string, Json>)

  /** The library calls the core makes on text and bytes: ObjectMapper.readTree (None where it
      throws), writeValueAsString / JsonNode.toString, UTF-8 encoding and decoding, and
      URI.create, given as the message of the IllegalArgumentException it throws on a text that
      is no URI (None where the text parses). */
  datatype Codec = Codec(
    parse: string -> Option<Json>,
    render: Json -> string,
    utf8Encode: string -> seq<byte>,
    utf8Decode: seq<byte> -> string,
    uriError: string -> Option<string>)

  /** new String(bytes, UTF_8): whatever the decoder does elsewhere, no bytes decode to the
      empty string. */
  function Utf8Text(codec: Codec, bytes: seq<byte>): (r: string)
    ensures bytes == [] ==> r == ""
    ensures bytes != [] ==> r == codec.utf8Decode(bytes)
  {
    if bytes == [] then "" else codec.utf8Decode(bytes)
  }

  /** JsonNode.has: true exactly for an object holding that field, whatever its value. */
  predicate Has(j: Json, name: string) {
    j.JObj? && name in j.fields
  }

  /** JsonNode.get: the field's node, or Java null (None) when there is no such field. */
  function Get(j: Json, name: string): (r: Option<Json>)
    ensures r.Some? <==> Has(j, name)
    ensures r.Some? ==> r.value == j.fields[name]
  {
    if Has(j, name) then Some(j.fields[name]) else None
  }

  /** A node reference that is neither Java null nor a JSON null node. */
  predicate Present(x: Option<Json>) {
    x.Some? && x.value != JNull
  }

  /** JsonNode.asInt: an integer node narrowed to 32 bits, a textual node parsed after trimming
      as a decimal integer (0 when it is not one), a boolean as 1 or 0, anything else 0.
      Jackson's fallback for text with a fraction or an exponent is not part of this model. */
  function AsInt(j: Json): (r: int)
    ensures Int32Min <= r <= Int32Max
    ensures j.JNum? && Int32Min <= j.n <= Int32Max ==> r == j.n
  {
    match j
    case JNum(n) => Wrap32(n)
    case JStr(s) => ParseInt(Trim(s)).GetOr(0)
    case JBool(b) => if b then 1 else 0
    case _ => 0
  }

  /** JsonNode.asText(null): the text of a scalar, "" for containers, null (None) for JSON null. */
  function AsText(j: Json): (r: Option<string>)
    ensures r.None? <==> j == JNull
    ensures j.JStr? ==> r == Some(j.s)
  {
    match j
    case JNull => None
    case JBool(b) => Some(if b then "true" else "false")
    case JNum(n) => Some(IntToString(n))
    case JStr(s) => Some(s)
    case _ => Some("")
  }
}
