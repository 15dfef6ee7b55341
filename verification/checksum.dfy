/** The checksum endpoint: it hashes a fixed string, spells the digest as
    lower-case hexadecimal, two digits per byte, and wraps it in a small HTML
    response; when the hash algorithm is unavailable it answers with the
    exception's message instead. The digest itself is an input: SHA-256 is
    outside the model. */
module Checksum {
  import opened Wrappers

  /** A Java `byte`: signed, -128 to 127. */
  type JByte = b: int | -128 <= b < 128

  /** The value `%x` formats for a byte: Java's formatter adds 2^8 to a
      negative byte, so the digits are those of the unsigned byte. */
  function Unsigned(b: JByte): (r: int)
    ensures 0 <= r < 256
    ensures (r - b) % 256 == 0
  {
    if b < 0 then b + 256 else b
  }

  /** The byte whose unsigned reading is `u`. */
  function ToSigned(u: int): (r: JByte)
    requires 0 <= u < 256
    ensures Unsigned(r) == u
  {
    if u < 128 then u else u - 256
  }

  predicate IsLowerHex(c: char)
  {
    ('0' <= c <= '9') || ('a' <= c <= 'f')
  }

  /** The lower-case digit for a value below sixteen. */
  function HexDigit(v: int): (c: char)
    requires 0 <= v < 16
    ensures IsLowerHex(c)
  {
    if v < 10 then ('0' as int + v) as char else ('a' as int + (v - 10)) as char
  }

  /** The value of a lower-case hexadecimal digit. */
  function DigitValue(c: char): (v: int)
    requires IsLowerHex(c)
    ensures 0 <= v < 16 && HexDigit(v) == c
  {
    if c <= '9' then c as int - '0' as int else c as int - 'a' as int + 10
  }

  /** `String.format("%02x", b)`: the unsigned byte in two lower-case
      digits, high nibble first, a leading zero for values below sixteen. */
  function Format02x(b: JByte): (r: string)
    ensures |r| == 2 && IsLowerHex(r[0]) && IsLowerHex(r[1])
    ensures 16 * DigitValue(r[0]) + DigitValue(r[1]) == Unsigned(b)
  {
    var u := Unsigned(b);
    [HexDigit(u / 16), HexDigit(u % 16)]
  }

  /** The hex string the loop builds: each byte's two digits appended in
      byte order. */
  function Hex(bytes: seq<JByte>): (r: string)
    ensures |r| == 2 * |bytes|
    ensures forall i :: 0 <= i < |r| ==> IsLowerHex(r[i])
  {
    if |bytes| == 0 then ""
    else Hex(bytes[..|bytes| - 1]) + Format02x(bytes[|bytes| - 1])
  }

  /** Reads a string of digit pairs back into bytes: None for an odd
      length or a character that is not a lower-case hex digit. */
  function DecodeHex(s: string): (r: Option<seq<JByte>>)
    ensures r.Some? ==> |s| == 2 * |r.value|
  {
    if |s| == 0 then Some([])
    else if |s| == 1 then None
    else
      var high := s[|s| - 2];
      var low := s[|s| - 1];
      if !IsLowerHex(high) || !IsLowerHex(low) then None
      else
        match DecodeHex(s[..|s| - 2])
        case None => None
        case Some(prefix) => Some(prefix + [ToSigned(16 * DigitValue(high) + DigitValue(low))])
  }

  /** The two digits of a byte read back give the byte. */
  lemma PairRoundTrip(b: JByte)
    ensures var r := Format02x(b);
            ToSigned(16 * DigitValue(r[0]) + DigitValue(r[1])) == b
  {
  }

  /** Decoding the hex string recovers the digest. */
  lemma {:induction false} HexRoundTrip(bytes: seq<JByte>)
    ensures DecodeHex(Hex(bytes)) == Some(bytes)
    decreases |bytes|
  {
    if |bytes| > 0 {
      var init := bytes[..|bytes| - 1];
      var last := bytes[|bytes| - 1];
      var s := Hex(bytes);
      HexRoundTrip(init);
      assert s[..|s| - 2] == Hex(init);
      assert s[|s| - 2] == Format02x(last)[0] && s[|s| - 1] == Format02x(last)[1];
      PairRoundTrip(last);
      assert init + [last] == bytes;
    }
  }

  /** Every string the decoder accepts is the hex string of what it
      decodes to: the encoding reaches exactly the even-length strings of
      lower-case digits. */
  lemma {:induction false} DecodeThenEncode(s: string)
    requires DecodeHex(s).Some?
    ensures Hex(DecodeHex(s).value) == s
    decreases |s|
  {
    if |s| > 0 {
      var prefix := s[..|s| - 2];
      var high := s[|s| - 2];
      var low := s[|s| - 1];
      DecodeThenEncode(prefix);
      var bytes := DecodeHex(s).value;
      var b := ToSigned(16 * DigitValue(high) + DigitValue(low));
      assert bytes == DecodeHex(prefix).value + [b];
      assert bytes[..|bytes| - 1] == DecodeHex(prefix).value;
      var f := Format02x(b);
      assert 16 * DigitValue(f[0]) + DigitValue(f[1]) == 16 * DigitValue(high) + DigitValue(low);
      assert DigitValue(f[0]) == DigitValue(high) && DigitValue(f[1]) == DigitValue(low);
      assert f == [high, low];
      assert s == prefix + [high, low];
    }
  }

  /** Different digests give different hex strings. */
  lemma HexInjective(a: seq<JByte>, b: seq<JByte>)
    requires Hex(a) == Hex(b)
    ensures a == b
  {
    HexRoundTrip(a);
    HexRoundTrip(b);
  }

  /** Byte i is spelled at characters 2i and 2i+1. */
  lemma {:induction false} HexPairAt(bytes: seq<JByte>, i: nat)
    requires i < |bytes|
    ensures Hex(bytes)[2 * i .. 2 * i + 2] == Format02x(bytes[i])
    decreases |bytes|
  {
    var init := bytes[..|bytes| - 1];
    if i < |bytes| - 1 {
      HexPairAt(init, i);
      assert Hex(bytes)[2 * i .. 2 * i + 2] == Hex(init)[2 * i .. 2 * i + 2];
    }
  }

  /** The loop over the digest, appending two digits per byte to a
      string builder. */
  method HexString(hashBytes: seq<JByte>) returns (hexString: string)
    ensures |hexString| == 2 * |hashBytes|
    ensures forall i :: 0 <= i < |hexString| ==> IsLowerHex(hexString[i])
    ensures DecodeHex(hexString) == Some(hashBytes)
  {
    hexString := "";
    var i := 0;
    while i < |hashBytes|
      invariant 0 <= i <= |hashBytes|
      invariant hexString == Hex(hashBytes[..i])
    {
      hexString := hexString + Format02x(hashBytes[i]);
      assert hashBytes[..i + 1][..i] == hashBytes[..i];
      i := i + 1;
    }
    assert hashBytes[..i] == hashBytes;
    HexRoundTrip(hashBytes);
  }

  /** The string the endpoint hashes. */
  const Data: string := "Godsgift Arokarawei"

  const ResponsePrefix: string := "<h2>Original String: "
  const ResponseMiddle: string := "</h2><br/><h3>SHA-256 Checksum: "
  const ResponseSuffix: string := "</h3>"
  const ErrorPrefix: string := "Error generating checksum: "

  /** What asking for the SHA-256 digest yields: the digest, or the
      algorithm-missing exception with its message, which may be null. */
  datatype DigestOutcome =
    | Digest(hashBytes: seq<JByte>)
    | NoSuchAlgorithm(message: Option<string>)

  /** A message as string concatenation renders it: a null reference as
      "null". */
  function MessageText(message: Option<string>): string
  {
    match message
    case None => "null"
    case Some(text) => text
  }

  /** Everything before the hex digits in a success response. */
  const Head: string := ResponsePrefix + Data + ResponseMiddle

  /** The endpoint's response for a digest outcome. */
  method GetChecksum(outcome: DigestOutcome) returns (response: string)
    ensures outcome.Digest? ==>
              && |response| == |Head| + 2 * |outcome.hashBytes| + |ResponseSuffix|
              && response[..|Head|] == Head
              && response[|response| - |ResponseSuffix|..] == ResponseSuffix
              && DecodeHex(response[|Head|..|response| - |ResponseSuffix|]) == Some(outcome.hashBytes)
    ensures outcome.NoSuchAlgorithm? ==>
              && |response| >= |ErrorPrefix|
              && response[..|ErrorPrefix|] == ErrorPrefix
              && response[|ErrorPrefix|..] == MessageText(outcome.message)
  {
    match outcome
    case Digest(hashBytes) =>
      var hexString := HexString(hashBytes);
      response := ResponsePrefix + Data + ResponseMiddle + hexString + ResponseSuffix;
      assert response == Head + hexString + ResponseSuffix;
      assert response[|Head|..|response| - |ResponseSuffix|] == hexString;
    case NoSuchAlgorithm(message) =>
      response := ErrorPrefix + MessageText(message);
  }

  /** Reads the digest back out of a response: None for anything that is
      not a success response. */
  function ParseChecksum(response: string): (r: Option<seq<JByte>>)
    ensures r.Some? ==> |response| == |Head| + 2 * |r.value| + |ResponseSuffix|
  {
    if |response| < |Head| + |ResponseSuffix| then None
    else if response[..|Head|] != Head then None
    else if response[|response| - |ResponseSuffix|..] != ResponseSuffix then None
    else DecodeHex(response[|Head|..|response| - |ResponseSuffix|])
  }

  /** A success response carries its digest: parsing it gives the digest
      back, and a 32-byte SHA-256 digest makes 64 digits. */
  method ChecksumRoundTrip(hashBytes: seq<JByte>) returns (response: string)
    ensures ParseChecksum(response) == Some(hashBytes)
    ensures |hashBytes| == 32 ==> |response| == |Head| + 64 + |ResponseSuffix|
  {
    response := GetChecksum(Digest(hashBytes));
  }

  /** An error response never parses as a checksum, whatever the message. */
  lemma ErrorIsNotChecksum(message: Option<string>)
    ensures ParseChecksum(ErrorPrefix + MessageText(message)).None?
  {
    var response := ErrorPrefix + MessageText(message);
    if |response| >= |Head| + |ResponseSuffix| {
      assert response[0] == 'E' && Head[0] == '<';
      assert response[..|Head|][0] != Head[0];
    }
  }
}
