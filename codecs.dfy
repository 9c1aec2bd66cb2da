/**
 * Platform encoders the app calls but does not implement: `android.util.Base64`
 * with `NO_WRAP`, and the UTF-8 conversions `String.toByteArray()` / `String(bytes)`.
 * Each is a pair of functions; the only property assumed of a pair is that decoding
 * undoes encoding.
 */
module Codecs {
  import opened Bytes
  import opened Wrappers

  /** `Base64.encodeToString(_, NO_WRAP)` and `Base64.decode(_, NO_WRAP)`; decoding malformed text throws. */
  datatype Base64Functions = Base64Functions(
    encode: seq<Byte> -> string,
    decode: string -> Result<seq<Byte>, string>)

  ghost predicate Base64RoundTrip(b64: Base64Functions) {
    forall bytes: seq<Byte> :: b64.decode(b64.encode(bytes)) == Ok(bytes)
  }

  /** `String.toByteArray()` and `String(bytes)`, both UTF-8; decoding never throws. */
  datatype Utf8Functions = Utf8Functions(
    encode: string -> seq<Byte>,
    decode: seq<Byte> -> string)

  ghost predicate Utf8RoundTrip(utf8: Utf8Functions) {
    forall s: string :: utf8.decode(utf8.encode(s)) == s
  }
}
