/**
 * The wire records of the signer: byte arrays carried as URL-safe base64 text,
 * the payload to verify and the artifact returned on success.
 */
module Structs {
  import opened Wrappers
  import Base64

  /** `StringBytes`: a byte array kept as its padded URL-safe base64 text. */
  datatype StringBytes = StringBytes(text: string)

  /** `TimestampedData`: the payload to verify and the signature over it. */
  datatype TimestampedData = TimestampedData(data: StringBytes, signature: StringBytes)

  /** `SignedData`: the artifact returned when verification succeeds. */
  datatype SignedData = SignedData(signature: StringBytes)

  /**
   * `StringBytes::to_vec`: the bytes the text stands for, or None (never a
   * fault) when the text is not the padded URL-safe encoding of any bytes.
   */
  function ToVec(sb: StringBytes): (r: Option<seq<Base64.Byte>>)
    ensures r.Some? ==> Base64.Encode(r.value) == sb.text
    ensures r.None? ==> forall b: seq<Base64.Byte> :: Base64.Encode(b) != sb.text
  {
    Base64.DecodeCharacterization(sb.text);
    Base64.Decode(sb.text)
  }

  /** `From<Vec<u8>> for StringBytes`: the padded URL-safe encoding of `b`. */
  function FromBytes(b: seq<Base64.Byte>): (r: StringBytes)
    ensures ToVec(r) == Some(b)
    ensures |r.text| == 4 * ((|b| + 2) / 3)
    ensures forall i :: 0 <= i < |r.text| ==> Base64.IsSymbol(r.text[i]) || r.text[i] == Base64.PadChar
  {
    Base64.DecodeEncode(b);
    StringBytes(Base64.Encode(b))
  }

  /** `TimestampedData::new`: both fields carry the bytes [1, 2, 3]. */
  function NewTimestampedData(): (t: TimestampedData)
    ensures t.data.text == "AQID" && t.signature.text == "AQID"
    ensures ToVec(t.data) == Some([1, 2, 3]) && ToVec(t.signature) == Some([1, 2, 3])
  {
    Base64.EncodeOneTwoThree();
    TimestampedData(FromBytes([1, 2, 3]), FromBytes([1, 2, 3]))
  }

  /** `SignedData::new`: the signature is always the bytes [1, 2, 3]. */
  function NewSignedData(): (d: SignedData)
    ensures d.signature.text == "AQID"
    ensures ToVec(d.signature) == Some([1, 2, 3])
  {
    Base64.EncodeOneTwoThree();
    SignedData(FromBytes([1, 2, 3]))
  }
}
