/**
 * The padded base64 engine of RFC 4648 over the URL and filename safe alphabet
 * of its section 5 (the `URL_SAFE` engine that `StringBytes` is built on).
 *
 * Encoding turns every 3 input bytes into 4 symbols and pads a final group of
 * 1 or 2 bytes with `=` up to 4 symbols. Decoding is canonical: the text length
 * must be a multiple of 4, `=` may appear only as the padding of the last group,
 * and the bits that padding discards must be zero. The text accepted is then
 * exactly the text that Encode produces (DecodeIsCanonical).
 */
module Base64 {
  import opened Wrappers

  /** One octet, as held by a Rust `Vec<u8>`. */
  type Byte = b: int | 0 <= b < 256

  /** A 6-bit value: the index of a symbol in the alphabet. */
  type Sextet = v: int | 0 <= v < 64

  const PadChar: char := '='

  /** The symbol that encodes the 6-bit value `v`. */
  function SymbolOf(v: Sextet): (c: char)
  {
    if v < 26 then ('A' as int + v) as char
    else if v < 52 then ('a' as int + (v - 26)) as char
    else if v < 62 then ('0' as int + (v - 52)) as char
    else if v == 62 then '-'
    else '_'
  }

  /** The 6-bit value of symbol `c`, or None when `c` is not in the alphabet. */
  function ValueOf(c: char): (r: Option<Sextet>)
    ensures r.Some? ==> SymbolOf(r.value) == c
  {
    if 'A' <= c <= 'Z' then Some(c as int - 'A' as int)
    else if 'a' <= c <= 'z' then Some(c as int - 'a' as int + 26)
    else if '0' <= c <= '9' then Some(c as int - '0' as int + 52)
    else if c == '-' then Some(62)
    else if c == '_' then Some(63)
    else None
  }

  predicate IsSymbol(c: char) {
    ValueOf(c).Some?
  }

  /** Every symbol decodes to the value it encodes. */
  lemma SymbolRoundTrip(v: Sextet)
    ensures ValueOf(SymbolOf(v)) == Some(v)
  {
  }

  /** Number of symbols the padded encoding of `n` bytes takes. */
  function EncodedLength(n: nat): nat {
    4 * ((n + 2) / 3)
  }

  /** Three bytes, four symbols. */
  function EncodeGroup(b0: Byte, b1: Byte, b2: Byte): (q: string)
    ensures |q| == 4 && forall i :: 0 <= i < 4 ==> IsSymbol(q[i])
  {
    [SymbolOf(b0 / 4), SymbolOf((b0 % 4) * 16 + b1 / 16), SymbolOf((b1 % 16) * 4 + b2 / 64), SymbolOf(b2 % 64)]
  }

  /** A final group of two bytes: three symbols and one pad. */
  function EncodeTail2(b0: Byte, b1: Byte): (q: string)
    ensures |q| == 4 && IsSymbol(q[0]) && IsSymbol(q[1]) && IsSymbol(q[2]) && q[3] == PadChar
  {
    [SymbolOf(b0 / 4), SymbolOf((b0 % 4) * 16 + b1 / 16), SymbolOf((b1 % 16) * 4), PadChar]
  }

  /** A final group of one byte: two symbols and two pads. */
  function EncodeTail1(b0: Byte): (q: string)
    ensures |q| == 4 && IsSymbol(q[0]) && IsSymbol(q[1]) && q[2] == PadChar && q[3] == PadChar
  {
    [SymbolOf(b0 / 4), SymbolOf((b0 % 4) * 16), PadChar, PadChar]
  }

  /**
   * Padded encoding. The result has length 4 * ceil(n / 3), and `=` occurs in it
   * only in its last two positions.
   */
  function Encode(b: seq<Byte>): (s: string)
    ensures |s| == EncodedLength(|b|)
    ensures forall i :: 0 <= i < |s| ==> IsSymbol(s[i]) || (s[i] == PadChar && i >= |s| - 2)
    decreases |b|
  {
    if |b| == 0 then ""
    else if |b| == 1 then EncodeTail1(b[0])
    else if |b| == 2 then EncodeTail2(b[0], b[1])
    else EncodeGroup(b[0], b[1], b[2]) + Encode(b[3..])
  }

  /** Three bytes out of four symbol values. */
  function Triple(v0: Sextet, v1: Sextet, v2: Sextet, v3: Sextet): seq<Byte> {
    [v0 * 4 + v1 / 16, (v1 % 16) * 16 + v2 / 4, (v2 % 4) * 64 + v3]
  }

  /** A group that is not the last one: four symbols, no padding. */
  function DecodeGroup(q: string): (r: Option<seq<Byte>>)
    requires |q| == 4
    ensures r.Some? ==> |r.value| == 3
  {
    var v0, v1, v2, v3 := ValueOf(q[0]), ValueOf(q[1]), ValueOf(q[2]), ValueOf(q[3]);
    if v0.Some? && v1.Some? && v2.Some? && v3.Some? then
      Some(Triple(v0.value, v1.value, v2.value, v3.value))
    else None
  }

  /**
   * The last group: four symbols, three symbols and `=`, or two symbols and `==`.
   * Bits that the padding drops must be zero.
   */
  function DecodeLastGroup(q: string): (r: Option<seq<Byte>>)
    requires |q| == 4
    ensures r.Some? ==> 1 <= |r.value| <= 3
  {
    var v0, v1, v2, v3 := ValueOf(q[0]), ValueOf(q[1]), ValueOf(q[2]), ValueOf(q[3]);
    if v0.None? || v1.None? then None
    else if q[2] == PadChar && q[3] == PadChar then
      if v1.value % 16 == 0 then Some([v0.value * 4 + v1.value / 16]) else None
    else if v2.None? then None
    else if q[3] == PadChar then
      if v2.value % 4 == 0 then Some([v0.value * 4 + v1.value / 16, (v1.value % 16) * 16 + v2.value / 4]) else None
    else if v3.None? then None
    else Some(Triple(v0.value, v1.value, v2.value, v3.value))
  }

  /** Canonical padded decoding; None for text that no byte sequence encodes to. */
  function Decode(s: string): (r: Option<seq<Byte>>)
    ensures r.Some? ==> |s| == EncodedLength(|r.value|)
    decreases |s|
  {
    if |s| == 0 then Some([])
    else if |s| < 4 then None
    else if |s| == 4 then DecodeLastGroup(s)
    else
      match DecodeGroup(s[..4])
      case None => None
      case Some(head) =>
        match Decode(s[4..])
        case None => None
        case Some(tail) => Some(head + tail)
  }

  // ---------------------------------------------------------------------------
  // Group-level inverses

  /** Splitting three bytes into four 6-bit values and joining them again is the identity. */
  lemma TripleOfSplit(b0: Byte, b1: Byte, b2: Byte)
    ensures Triple(b0 / 4, (b0 % 4) * 16 + b1 / 16, (b1 % 16) * 4 + b2 / 64, b2 % 64) == [b0, b1, b2]
  {
    var v1, v2 := (b0 % 4) * 16 + b1 / 16, (b1 % 16) * 4 + b2 / 64;
    assert v1 / 16 == b0 % 4 && v1 % 16 == b1 / 16;
    assert v2 / 4 == b1 % 16 && v2 % 4 == b2 / 64;
  }

  lemma GroupRoundTrip(b0: Byte, b1: Byte, b2: Byte)
    ensures DecodeGroup(EncodeGroup(b0, b1, b2)) == Some([b0, b1, b2])
    ensures DecodeLastGroup(EncodeGroup(b0, b1, b2)) == Some([b0, b1, b2])
  {
    var q := EncodeGroup(b0, b1, b2);
    var v0, v1, v2, v3 := b0 / 4, (b0 % 4) * 16 + b1 / 16, (b1 % 16) * 4 + b2 / 64, b2 % 64;
    SymbolRoundTrip(v0);
    SymbolRoundTrip(v1);
    SymbolRoundTrip(v2);
    SymbolRoundTrip(v3);
    TripleOfSplit(b0, b1, b2);
    assert DecodeGroup(q) == Some(Triple(v0, v1, v2, v3));
    assert q[2] != PadChar && q[3] != PadChar;
  }

  lemma Tail2RoundTrip(b0: Byte, b1: Byte)
    ensures DecodeLastGroup(EncodeTail2(b0, b1)) == Some([b0, b1])
  {
    var q := EncodeTail2(b0, b1);
    assert ValueOf(q[0]) == Some(b0 / 4);
    assert ValueOf(q[1]) == Some((b0 % 4) * 16 + b1 / 16);
    assert ValueOf(q[2]) == Some((b1 % 16) * 4);
  }

  lemma Tail1RoundTrip(b0: Byte)
    ensures DecodeLastGroup(EncodeTail1(b0)) == Some([b0])
  {
    var q := EncodeTail1(b0);
    assert ValueOf(q[0]) == Some(b0 / 4);
    assert ValueOf(q[1]) == Some((b0 % 4) * 16);
  }

  lemma GroupCanonical(q: string)
    requires |q| == 4 && DecodeGroup(q).Some?
    ensures var t := DecodeGroup(q).value; EncodeGroup(t[0], t[1], t[2]) == q
  {
    var v0, v1, v2, v3 := ValueOf(q[0]).value, ValueOf(q[1]).value, ValueOf(q[2]).value, ValueOf(q[3]).value;
    var t := Triple(v0, v1, v2, v3);
    assert t[0] / 4 == v0 && (t[0] % 4) * 16 + t[1] / 16 == v1;
    assert (t[1] % 16) * 4 + t[2] / 64 == v2 && t[2] % 64 == v3;
    assert EncodeGroup(t[0], t[1], t[2]) == [q[0], q[1], q[2], q[3]];
  }

  lemma LastGroupCanonical(q: string)
    requires |q| == 4 && DecodeLastGroup(q).Some?
    ensures Encode(DecodeLastGroup(q).value) == q
  {
    var t := DecodeLastGroup(q).value;
    var v0, v1 := ValueOf(q[0]).value, ValueOf(q[1]).value;
    if |t| == 1 {
      assert t[0] / 4 == v0 && (t[0] % 4) * 16 == v1;
      assert Encode(t) == EncodeTail1(t[0]) == [q[0], q[1], q[2], q[3]];
    } else if |t| == 2 {
      var v2 := ValueOf(q[2]).value;
      assert t[0] / 4 == v0 && (t[0] % 4) * 16 + t[1] / 16 == v1 && (t[1] % 16) * 4 == v2;
      assert Encode(t) == EncodeTail2(t[0], t[1]) == [q[0], q[1], q[2], q[3]];
    } else {
      GroupCanonical(q);
      assert DecodeGroup(q) == DecodeLastGroup(q);
      assert Encode(t) == EncodeGroup(t[0], t[1], t[2]) + Encode(t[3..]);
      assert t[3..] == [];
    }
  }

  // ---------------------------------------------------------------------------
  // Whole-text inverses

  /** Decoding the encoding of any byte sequence gives that byte sequence back. */
  lemma {:induction false} DecodeEncode(b: seq<Byte>)
    ensures Decode(Encode(b)) == Some(b)
    decreases |b|
  {
    if |b| == 0 {
    } else if |b| == 1 {
      Tail1RoundTrip(b[0]);
      assert [b[0]] == b;
    } else if |b| == 2 {
      Tail2RoundTrip(b[0], b[1]);
      assert [b[0], b[1]] == b;
    } else {
      var head, rest := EncodeGroup(b[0], b[1], b[2]), Encode(b[3..]);
      var s := head + rest;
      GroupRoundTrip(b[0], b[1], b[2]);
      assert b == [b[0], b[1], b[2]] + b[3..];
      if |b| == 3 {
        assert b[3..] == [];
        assert rest == "" && s == head && Encode(b) == s;
        assert Decode(s) == DecodeLastGroup(head);
        assert b == [b[0], b[1], b[2]];
      } else {
        DecodeEncode(b[3..]);
        assert s[..4] == head && s[4..] == rest;
      }
    }
  }

  /** Text that decodes is the encoding of what it decodes to. */
  lemma {:induction false} DecodeIsCanonical(s: string)
    requires Decode(s).Some?
    ensures Encode(Decode(s).value) == s
    decreases |s|
  {
    if |s| == 0 {
    } else if |s| == 4 {
      LastGroupCanonical(s);
    } else {
      var t := Decode(s).value;
      var head, tail := DecodeGroup(s[..4]).value, Decode(s[4..]).value;
      DecodeIsCanonical(s[4..]);
      GroupCanonical(s[..4]);
      assert t == head + tail && |tail| > 0;
      assert t[3..] == tail && [t[0], t[1], t[2]] == head;
      assert s == s[..4] + s[4..];
    }
  }

  /**
   * Decode succeeds exactly on the image of Encode: text that decodes is the
   * encoding of its result, and text that fails is the encoding of nothing.
   */
  lemma DecodeCharacterization(s: string)
    ensures Decode(s).Some? ==> Encode(Decode(s).value) == s
    ensures Decode(s).None? ==> forall b: seq<Byte> :: Encode(b) != s
  {
    if Decode(s).Some? {
      DecodeIsCanonical(s);
    } else {
      forall b: seq<Byte> ensures Encode(b) != s {
        DecodeEncode(b);
      }
    }
  }

  /** A character outside the alphabet and `=` anywhere makes decoding fail. */
  lemma ForeignCharRejected(s: string, i: nat)
    requires i < |s| && !IsSymbol(s[i]) && s[i] != PadChar
    ensures Decode(s) == None
  {
    if Decode(s).Some? {
      DecodeIsCanonical(s);
    }
  }

  /** `=` anywhere but the last two positions makes decoding fail. */
  lemma MisplacedPadRejected(s: string, i: nat)
    requires i + 2 < |s| && s[i] == PadChar
    ensures Decode(s) == None
  {
    if Decode(s).Some? {
      DecodeIsCanonical(s);
    }
  }

  /** A length that is not a multiple of 4 makes decoding fail. */
  lemma {:induction false} UnpaddedLengthRejected(s: string)
    requires |s| % 4 != 0
    ensures Decode(s) == None
    decreases |s|
  {
    if |s| > 4 {
      UnpaddedLengthRejected(s[4..]);
    }
  }

  /** The bytes [1, 2, 3] encode as "AQID". */
  lemma EncodeOneTwoThree()
    ensures Encode([1, 2, 3]) == "AQID"
    ensures Decode("AQID") == Some([1, 2, 3])
  {
    var b: seq<Byte> := [1, 2, 3];
    assert b[3..] == [];
    assert Encode(b) == EncodeGroup(1, 2, 3) + Encode([]);
    assert SymbolOf(0) == 'A' && SymbolOf(16) == 'Q' && SymbolOf(8) == 'I' && SymbolOf(3) == 'D';
    assert EncodeGroup(1, 2, 3) == [SymbolOf(0), SymbolOf(16), SymbolOf(8), SymbolOf(3)];
    DecodeEncode(b);
  }
}
