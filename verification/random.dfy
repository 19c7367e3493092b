/**
 * Random identifiers in the base64url alphabet (src/utils/random.rs). The
 * random number generator is replaced by the sequence of its draws, each in
 * [0, 64); the function is then a pure map from draws to bytes.
 */
module Random {
  import Strings
  import opened Protocol

  type Byte = x: int | 0 <= x < 256

  /** A draw from `gen_range(0, 64)`. */
  type Draw = x: nat | x < 64

  /**
   * The byte the source writes for one draw. The `u8` sums never exceed
   * 148, so none of them wraps.
   */
  function Base64UrlByte(num: Draw): (b: Byte)
    ensures b < 0x80
  {
    if num < 26 then 'A' as int + num
    else if num < 2 * 26 then 'a' as int + num - 26
    else if num < 2 * 26 + 10 then '0' as int + num - 2 * 26
    else if num == 2 * 26 + 10 then '-' as int
    else '_' as int
  }

  const UpperLetters: string := "ABCDEFGHIJKLMNOPQRSTUVWXYZ"
  const LowerLetters: string := "abcdefghijklmnopqrstuvwxyz"
  const Digits: string := "0123456789"

  /** The URL- and filename-safe alphabet of section 5 (Table 2) of RFC 4648. */
  const Rfc4648UrlAlphabet: string := UpperLetters + LowerLetters + Digits + "-_"

  /** Inverse of the mapping: the value a base64url byte stands for. */
  function AlphabetIndex(b: Byte): Option<Draw> {
    if 'A' as int <= b <= 'Z' as int then Some(b - 'A' as int)
    else if 'a' as int <= b <= 'z' as int then Some(b - 'a' as int + 26)
    else if '0' as int <= b <= '9' as int then Some(b - '0' as int + 52)
    else if b == '-' as int then Some(62)
    else if b == '_' as int then Some(63)
    else None
  }

  /** The mapping agrees with the RFC 4648 table entry for every value. */
  lemma MatchesRfc4648Table(num: Draw)
    ensures |Rfc4648UrlAlphabet| == 64
    ensures Base64UrlByte(num) == Rfc4648UrlAlphabet[num] as int
  {
    var u, l, d := UpperLetters, LowerLetters, Digits;
    assert |u| == 26 && |l| == 26 && |d| == 10;
    if num < 26 {
      assert forall i :: 0 <= i < 26 ==> u[i] as int == 'A' as int + i;
    } else if num < 52 {
      assert forall i :: 0 <= i < 26 ==> l[i] as int == 'a' as int + i;
    } else if num < 62 {
      assert forall i :: 0 <= i < 10 ==> d[i] as int == '0' as int + i;
    }
  }

  /** Decoding a written byte gives back its draw. */
  lemma AlphabetRoundTrip(num: Draw)
    ensures AlphabetIndex(Base64UrlByte(num)) == Some(num)
  {
  }

  /** Distinct draws give distinct bytes. */
  lemma Base64UrlByteInjective(a: Draw, b: Draw)
    ensures a != b ==> Base64UrlByte(a) != Base64UrlByte(b)
  {
    AlphabetRoundTrip(a);
    AlphabetRoundTrip(b);
  }

  /**
   * `generate_random_base64url`: one byte per draw, byte `i` determined by
   * draw `i` alone.
   */
  method GenerateRandomBase64url(length: nat, draws: seq<Draw>) returns (bytes: seq<Byte>)
    requires |draws| == length
    ensures |bytes| == length
    ensures forall i :: 0 <= i < length ==> bytes[i] == Base64UrlByte(draws[i])
  {
    bytes := seq(length, _ => 0);
    for i := 0 to length
      invariant |bytes| == length
      invariant forall j :: 0 <= j < i ==> bytes[j] == Base64UrlByte(draws[j])
    {
      var num := draws[i];
      var b: Byte;
      if num < 26 {
        b := 'A' as int + num;
      } else if num < 2 * 26 {
        b := 'a' as int + num - 26;
      } else if num < 2 * 26 + 10 {
        b := '0' as int + num - 2 * 26;
      } else if num == 2 * 26 + 10 {
        b := '-' as int;
      } else {
        b := '_' as int;
      }
      bytes := bytes[i := b];
    }
  }

  /** `String::from_utf8_unchecked` on single-byte characters. */
  function BytesAsString(bytes: seq<Byte>): string
    requires forall i :: 0 <= i < |bytes| ==> bytes[i] < 0x80
  {
    seq(|bytes|, i requires 0 <= i < |bytes| => bytes[i] as char)
  }

  /**
   * Every generated byte is ASCII, so the unchecked conversion yields a
   * valid string with one character per byte and UTF-8 length `length`.
   */
  lemma GeneratedIsAscii(draws: seq<Draw>, bytes: seq<Byte>)
    requires |bytes| == |draws|
    requires forall i :: 0 <= i < |draws| ==> bytes[i] == Base64UrlByte(draws[i])
    ensures forall i :: 0 <= i < |bytes| ==> bytes[i] < 0x80
    ensures Strings.Utf8Len(BytesAsString(bytes)) == |bytes|
    ensures forall i :: 0 <= i < |bytes| ==> BytesAsString(bytes)[i] in Rfc4648UrlAlphabet
  {
    forall i | 0 <= i < |bytes|
      ensures BytesAsString(bytes)[i] in Rfc4648UrlAlphabet
    {
      MatchesRfc4648Table(draws[i]);
    }
  }
}
