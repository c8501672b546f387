/** The text form of a digest in `sha256Hex`: every byte of the digest,
    in order, as `b.toString(16).padStart(2, "0")`, joined with no
    separator. The SHA-256 digest itself is an input here. */
module Hash {

  newtype byte = x: int | 0 <= x < 256

  const HEX_DIGITS: string := "0123456789abcdef"

  predicate IsHexDigit(c: char) {
    '0' <= c <= '9' || 'a' <= c <= 'f'
  }

  /** The value of a lowercase hexadecimal digit. */
  function HexDigitValue(c: char): (v: nat)
    ensures v < 16
    ensures IsHexDigit(c) ==> HEX_DIGITS[v] == c
  {
    if '0' <= c <= '9' then (c as int) - ('0' as int)
    else if 'a' <= c <= 'f' then (c as int) - ('a' as int) + 10
    else 0
  }

  /** Each hexadecimal digit reads back as its own index. */
  lemma HexDigitsRead(d: nat)
    requires d < 16
    ensures IsHexDigit(HEX_DIGITS[d]) && HexDigitValue(HEX_DIGITS[d]) == d
  {
  }

  /** `b.toString(16)`: the shortest lowercase hexadecimal digits of b. */
  function ToString16(b: byte): (s: string)
    ensures |s| == if b < 16 then 1 else 2
    ensures forall i :: 0 <= i < |s| ==> IsHexDigit(s[i])
    ensures b >= 16 ==> s[0] != '0'
    ensures (if |s| == 1 then HexDigitValue(s[0]) else 16 * HexDigitValue(s[0]) + HexDigitValue(s[1])) == b as int
  {
    var hi := (b / 16) as int;
    var lo := (b % 16) as int;
    HexDigitsRead(hi);
    HexDigitsRead(lo);
    if b < 16 then [HEX_DIGITS[lo]] else [HEX_DIGITS[hi], HEX_DIGITS[lo]]
  }

  /** `s.padStart(2, "0")` */
  function PadStart2(s: string): (r: string)
    ensures |r| == if |s| < 2 then 2 else |s|
    ensures |s| >= 2 ==> r == s
    ensures |s| == 1 ==> r[0] == '0' && r[1] == s[0]
    ensures |s| == 0 ==> r == "00"
  {
    if |s| < 2 then "00"[..2 - |s|] + s else s
  }

  /** One byte as exactly two digits, the high nibble first; a byte below
      16 gets a leading '0'. ByteToHexPadded shows this is the text
      `b.toString(16).padStart(2, "0")`. */
  function ByteToHex(b: byte): (s: string)
    ensures |s| == 2
    ensures b < 16 ==> s[0] == '0'
  {
    [HEX_DIGITS[(b / 16) as int], HEX_DIGITS[(b % 16) as int]]
  }

  /** The two digits are `b.toString(16)` padded on the left with '0' to
      length 2. */
  lemma ByteToHexPadded(b: byte)
    ensures ByteToHex(b) == PadStart2(ToString16(b))
  {
  }

  /** `.map(b => b.toString(16).padStart(2, "0")).join("")` */
  function ToHex(bytes: seq<byte>): (s: string)
    ensures |s| == 2 * |bytes|
  {
    if bytes == [] then "" else ByteToHex(bytes[0]) + ToHex(bytes[1..])
  }

  /** The text holds only the characters 0-9 and a-f. */
  lemma {:induction false} ToHexCharset(bytes: seq<byte>)
    ensures forall i :: 0 <= i < |ToHex(bytes)| ==> IsHexDigit(ToHex(bytes)[i])
  {
    if bytes != [] {
      var head := ByteToHex(bytes[0]);
      var tail := ToHex(bytes[1..]);
      ToHexCharset(bytes[1..]);
      HexDigitsRead((bytes[0] / 16) as int);
      HexDigitsRead((bytes[0] % 16) as int);
      assert ToHex(bytes) == head + tail;
      forall i | 0 <= i < |head + tail| ensures IsHexDigit((head + tail)[i]) {
        if i >= 2 { assert (head + tail)[i] == tail[i - 2]; }
      }
    }
  }

  /** `sha256Hex` after the digest: its hexadecimal text, twice as long as
      the digest (64 characters for SHA-256's 32 bytes), in 0-9 and a-f. */
  function Sha256Hex(digest: seq<byte>): (s: string)
    ensures |s| == 2 * |digest|
    ensures |digest| == 32 ==> |s| == 64
    ensures forall i :: 0 <= i < |s| ==> IsHexDigit(s[i])
  {
    ToHexCharset(digest);
    ToHex(digest)
  }

  /** Reading hexadecimal text two digits at a time. */
  function FromHex(s: string): (bytes: seq<byte>)
    ensures |bytes| == |s| / 2
  {
    if |s| < 2 then []
    else [(16 * HexDigitValue(s[0]) + HexDigitValue(s[1])) as byte] + FromHex(s[2..])
  }

  /** The text of a non-empty digest starts with its first byte's pair. */
  lemma ToHexCons(bytes: seq<byte>)
    requires bytes != []
    ensures ToHex(bytes) == ByteToHex(bytes[0]) + ToHex(bytes[1..])
  {
  }

  /** Byte k of the input is the pair of characters 2k, 2k+1 of the text. */
  lemma {:induction false} ToHexPairs(bytes: seq<byte>, k: int)
    requires 0 <= k < |bytes|
    ensures ToHex(bytes)[2 * k] == ByteToHex(bytes[k])[0]
    ensures ToHex(bytes)[2 * k + 1] == ByteToHex(bytes[k])[1]
    decreases k
  {
    var h := ByteToHex(bytes[0]);
    var t := ToHex(bytes[1..]);
    ToHexCons(bytes);
    if k > 0 {
      ToHexPairs(bytes[1..], k - 1);
      assert bytes[1..][k - 1] == bytes[k];
      assert (h + t)[2 * k] == t[2 * k - 2] && (h + t)[2 * k + 1] == t[2 * k - 1];
    }
  }

  /** The two digits of a byte read back as that byte. */
  lemma PairValue(b: byte)
    ensures 16 * HexDigitValue(ByteToHex(b)[0]) + HexDigitValue(ByteToHex(b)[1]) == b as int
  {
    var hi := (b / 16) as int;
    var lo := (b % 16) as int;
    HexDigitsRead(hi);
    HexDigitsRead(lo);
    assert 16 * hi + lo == b as int;
  }

  /** Splitting the text into pairs recovers the bytes, in order. */
  lemma {:induction false} FromHexToHex(bytes: seq<byte>)
    ensures FromHex(ToHex(bytes)) == bytes
  {
    if bytes != [] {
      var b := bytes[0];
      var h := ByteToHex(b);
      var t := ToHex(bytes[1..]);
      var s := ToHex(bytes);
      assert s == h + t by { ToHexCons(bytes); }
      assert s[0] == h[0] && s[1] == h[1] && s[2..] == t by { PairThenRest(h, t); }
      assert (16 * HexDigitValue(s[0]) + HexDigitValue(s[1])) as byte == b by { PairValue(b); }
      assert FromHex(s) == [b] + FromHex(t);
      FromHexToHex(bytes[1..]);
      assert bytes == [b] + bytes[1..];
    }
  }

  /** A two-character text followed by another, seen from its first pair. */
  lemma PairThenRest(h: string, t: string)
    requires |h| == 2
    ensures (h + t)[0] == h[0] && (h + t)[1] == h[1] && (h + t)[2..] == t
  {
  }

  /** Different digests have different texts. */
  lemma ToHexInjective(a: seq<byte>, b: seq<byte>)
    requires ToHex(a) == ToHex(b)
    ensures a == b
  {
    FromHexToHex(a);
    FromHexToHex(b);
  }
}
