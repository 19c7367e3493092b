/**
 * Name and URL validation (src/database/strings.rs). Strings are sequences
 * of Unicode scalar values; `str::len` is their UTF-8 byte length and
 * `chars().count()` is the sequence length.
 */
module Strings {

  const MaxChannelNameLength: nat := 32
  const MaxGroupNameLength: nat := 32
  const MaxUrlLength: nat := 2048

  /** Bytes UTF-8 uses for one scalar value (section 3 of RFC 3629). */
  function Utf8Width(c: char): (n: nat)
    ensures 1 <= n <= 4
    ensures n == 1 <==> (c as int) < 0x80
  {
    if (c as int) < 0x80 then 1
    else if (c as int) < 0x800 then 2
    else if (c as int) < 0x1_0000 then 3
    else 4
  }

  /** `str::len`: the UTF-8 byte length of a string. */
  function Utf8Len(s: string): (n: nat)
    ensures |s| <= n <= 4 * |s|
    ensures n == |s| <==> forall i :: 0 <= i < |s| ==> (s[i] as int) < 0x80
  {
    if |s| == 0 then 0 else Utf8Width(s[0]) + Utf8Len(s[1..])
  }

  /** `char::is_whitespace`: the Unicode White_Space property. */
  predicate IsWhitespace(c: char) {
    || ('\t' <= c <= '\r')
    || c == ' '
    || c == '\U{0085}'
    || c == '\U{00A0}'
    || c == '\U{1680}'
    || ('\U{2000}' <= c <= '\U{200A}')
    || c == '\U{2028}'
    || c == '\U{2029}'
    || c == '\U{202F}'
    || c == '\U{205F}'
    || c == '\U{3000}'
  }

  /** Characters a channel name may not contain. */
  predicate ForbiddenInChannelName(c: char) {
    c == '#' || c == '@' || IsWhitespace(c)
  }

  /**
   * The character loop of `valid_channel_name` from index `count` on: the
   * loop rejects as soon as it reaches character number 33 or sees a
   * forbidden character.
   */
  function ScanChannelChars(name: string, count: nat): (ok: bool)
    requires count <= |name| && count <= MaxChannelNameLength
    decreases |name| - count
    ensures ok <==>
      && |name| <= MaxChannelNameLength
      && forall i :: count <= i < |name| ==> !ForbiddenInChannelName(name[i])
  {
    if count == |name| then true
    else if count + 1 > MaxChannelNameLength then false
    else if ForbiddenInChannelName(name[count]) then false
    else ScanChannelChars(name, count + 1)
  }

  /**
   * A channel name is valid iff it is non-empty, has at most 32 characters
   * and none of them is `#`, `@` or whitespace. The 128-byte check of the
   * source never decides the outcome: 32 characters need at most 128 bytes.
   */
  function ValidChannelName(name: string): (ok: bool)
    ensures ok <==>
      && 0 < |name| <= MaxChannelNameLength
      && forall i :: 0 <= i < |name| ==> !ForbiddenInChannelName(name[i])
  {
    if |name| == 0 then false
    else if Utf8Len(name) > 4 * MaxChannelNameLength then false
    else ScanChannelChars(name, 0)
  }

  /** A group name is valid iff it has between 1 and 32 characters. */
  function ValidGroupName(name: string): (ok: bool)
    ensures ok <==> 0 < |name| <= MaxGroupNameLength
  {
    if |name| == 0 then false
    else if Utf8Len(name) > 4 * MaxGroupNameLength then false
    else |name| <= MaxGroupNameLength
  }

  /**
   * A picture URL is valid when it is shorter than 8192 bytes and has at
   * most 2048 characters. Every URL under 2048 characters passes; at exactly
   * 2048 characters the strict byte bound can still reject it.
   */
  function ValidUrl(url: string): (ok: bool)
    ensures ok ==> |url| <= MaxUrlLength
    ensures |url| < MaxUrlLength ==> ok
    ensures |url| == MaxUrlLength ==> (ok <==> Utf8Len(url) < 4 * MaxUrlLength)
  {
    Utf8Len(url) < 4 * MaxUrlLength && |url| <= MaxUrlLength
  }

  /** The empty URL is accepted (a group may have no picture). */
  lemma EmptyUrlAccepted()
    ensures ValidUrl("")
  {
  }

  /** `n` copies of one character take `n` times its width in bytes. */
  lemma {:induction false} Utf8LenRepeat(c: char, n: nat)
    ensures Utf8Len(seq(n, _ => c)) == n * Utf8Width(c)
  {
    if n > 0 {
      var s := seq(n, _ => c);
      assert s[1..] == seq(n - 1, _ => c);
      Utf8LenRepeat(c, n - 1);
    }
  }

  /**
   * The byte bound of `valid_url` is strict, so 2048 four-byte characters
   * (exactly 8192 bytes) are rejected even though the character count is
   * within the limit; 2047 of them are accepted.
   */
  lemma FourByteUrlBoundary()
    ensures !ValidUrl(seq(MaxUrlLength, _ => '\U{10000}'))
    ensures ValidUrl(seq(MaxUrlLength - 1, _ => '\U{10000}'))
  {
    Utf8LenRepeat('\U{10000}', MaxUrlLength);
    Utf8LenRepeat('\U{10000}', MaxUrlLength - 1);
  }

  /** The same boundary for channel names is not strict: 32 four-byte characters pass. */
  lemma FourByteChannelNameAccepted()
    ensures ValidChannelName(seq(MaxChannelNameLength, _ => '\U{10000}'))
    ensures !ValidChannelName(seq(MaxChannelNameLength + 1, _ => 'a'))
  {
    var s := seq(MaxChannelNameLength, _ => '\U{10000}');
    assert forall i :: 0 <= i < |s| ==> !ForbiddenInChannelName(s[i]);
  }
}
