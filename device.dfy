/**
 * Device-id validation and the bind-key derivation (src/device/bind_utils.go).
 * The keyed hash itself (HMAC-SHA-256, RFC 2104) is a parameter: only the message it
 * authenticates and the hex rendering of its digest are modelled.
 */
module Device {
  import opened Wrappers
  import opened Text

  /** Upper bound on a device id, in bytes. */
  const MaxDeviceIdBytes: nat := 64

  /** Number of bytes a character occupies in UTF-8, the encoding Go strings hold. */
  function Utf8Width(c: char): (w: nat)
    ensures 1 <= w <= 4
    ensures (c as int < 0x80) <==> w == 1
  {
    if c as int < 0x80 then 1
    else if c as int < 0x800 then 2
    else if c as int < 0x10000 then 3
    else 4
  }

  /** Go's len on a string: its length in bytes, not in characters. */
  function ByteLen(s: string): nat
  {
    if s == [] then 0 else ByteLen(s[..|s| - 1]) + Utf8Width(s[|s| - 1])
  }

  lemma {:induction false} ByteLenBounds(s: string)
    ensures |s| <= ByteLen(s) <= 4 * |s|
  {
    if s != [] {
      ByteLenBounds(s[..|s| - 1]);
    }
  }

  lemma {:induction false} AsciiByteLen(s: string)
    requires forall i :: 0 <= i < |s| ==> s[i] as int < 0x80
    ensures ByteLen(s) == |s|
  {
    if s != [] {
      AsciiByteLen(s[..|s| - 1]);
    }
  }

  /** ValidateDeviceID: accepted exactly when the id is 1 to 64 bytes long. */
  function ValidateDeviceID(deviceID: string): (ok: bool)
    ensures ok <==> 1 <= ByteLen(deviceID) <= MaxDeviceIdBytes
    ensures deviceID == "" ==> !ok
  {
    if deviceID == "" then false
    else if ByteLen(deviceID) < 1 || ByteLen(deviceID) > MaxDeviceIdBytes then false
    else true
  }

  /** The verdict depends on the byte length only, never on the content. */
  lemma ValidateDependsOnlyOnLength(a: string, b: string)
    requires ByteLen(a) == ByteLen(b)
    ensures ValidateDeviceID(a) == ValidateDeviceID(b)
  {
  }

  /** In characters: every id of 1 to 16 characters passes, none longer than 64 does. */
  lemma ValidateByCharacters(deviceID: string)
    ensures 1 <= |deviceID| <= MaxDeviceIdBytes / 4 ==> ValidateDeviceID(deviceID)
    ensures |deviceID| > MaxDeviceIdBytes ==> !ValidateDeviceID(deviceID)
  {
    ByteLenBounds(deviceID);
  }

  /** For ASCII ids bytes and characters coincide: 1 to 64 characters. */
  lemma ValidateAscii(deviceID: string)
    requires forall i :: 0 <= i < |deviceID| ==> deviceID[i] as int < 0x80
    ensures ValidateDeviceID(deviceID) <==> 1 <= |deviceID| <= MaxDeviceIdBytes
  {
    AsciiByteLen(deviceID);
  }

  /**
   * The text the bind key authenticates: device id, user id and Unix timestamp, colon
   * separated. Device ids may themselves contain ':'; the message still determines all three
   * inputs, read back from its last two fields.
   */
  function BindMessage(deviceID: string, userID: nat, timestamp: int): (m: string)
    ensures ParseBindMessage(m) == Some((deviceID, userID, timestamp))
  {
    var u := NatToString(userID);
    var t := IntToString(timestamp);
    ParseIntToString(timestamp);
    IntTextChars(t);
    assert ':' !in u;
    assert deviceID + ":" + u + ":" + t == (deviceID + ":" + u) + [':'] + t;
    SplitLastOf(deviceID + ":" + u, t, ':');
    assert deviceID + ":" + u == deviceID + [':'] + u;
    SplitLastOf(deviceID, u, ':');
    ParseNatToString(userID);
    deviceID + ":" + u + ":" + t
  }

  /** Splits s at the last occurrence of c. */
  function SplitLast(s: string, c: char): (r: Option<(string, string)>)
    ensures r.Some? ==> r.value.0 + [c] + r.value.1 == s && c !in r.value.1
    ensures r.None? ==> c !in s
  {
    if s == [] then None
    else if s[|s| - 1] == c then Some((s[..|s| - 1], ""))
    else
      match SplitLast(s[..|s| - 1], c)
      case None => None
      case Some(p) => Some((p.0, p.1 + [s[|s| - 1]]))
  }

  lemma {:induction false} SplitLastOf(a: string, b: string, c: char)
    requires c !in b
    ensures SplitLast(a + [c] + b, c) == Some((a, b))
    decreases |b|
  {
    var s := a + [c] + b;
    if b == [] {
      assert s[..|s| - 1] == a;
    } else {
      var b' := b[..|b| - 1];
      assert s[..|s| - 1] == a + [c] + b';
      assert c !in b' by { assert forall k :: 0 <= k < |b'| ==> b'[k] == b[k]; }
      SplitLastOf(a, b', c);
      assert b' + [b[|b| - 1]] == b;
    }
  }

  /** Reads a bind message back, taking the last two colon-separated fields as the numbers. */
  function ParseBindMessage(m: string): Option<(string, nat, int)>
  {
    match SplitLast(m, ':')
    case None => None
    case Some(p) =>
      if !IsIntText(p.1) then None
      else
        match SplitLast(p.0, ':')
        case None => None
        case Some(q) =>
          if |q.1| >= 1 && AllDigits(q.1) then Some((q.0, ParseNat(q.1), ParseInt(p.1))) else None
  }

  lemma BindMessageInjective(d1: string, u1: nat, t1: int, d2: string, u2: nat, t2: int)
    requires BindMessage(d1, u1, t1) == BindMessage(d2, u2, t2)
    ensures d1 == d2 && u1 == u2 && t1 == t2
  {
    assert ParseBindMessage(BindMessage(d1, u1, t1)) == Some((d1, u1, t1));
  }

  predicate IsLowerHexDigit(c: char) { '0' <= c <= '9' || 'a' <= c <= 'f' }

  function HexDigit(v: nat): (c: char)
    requires v < 16
    ensures IsLowerHexDigit(c)
  {
    if v < 10 then ('0' as int + v) as char else ('a' as int + v - 10) as char
  }

  function HexValue(c: char): (v: nat)
    requires IsLowerHexDigit(c)
    ensures v < 16
  {
    if '0' <= c <= '9' then (c as int) - ('0' as int) else (c as int) - ('a' as int) + 10
  }

  lemma HexValueOfDigit(v: nat)
    requires v < 16
    ensures HexValue(HexDigit(v)) == v
  {
  }

  /** `%x` on a byte slice: two lower-case hex digits per byte, high nibble first. */
  function LowerHex(bytes: seq<byte>): (s: string)
    ensures |s| == 2 * |bytes|
    ensures forall i :: 0 <= i < |s| ==> IsLowerHexDigit(s[i])
  {
    if bytes == [] then ""
    else [HexDigit(bytes[0] / 16), HexDigit(bytes[0] % 16)] + LowerHex(bytes[1..])
  }

  function DecodeHex(s: string): seq<byte>
    requires |s| % 2 == 0
    requires forall i :: 0 <= i < |s| ==> IsLowerHexDigit(s[i])
  {
    if s == [] then [] else [HexValue(s[0]) * 16 + HexValue(s[1])] + DecodeHex(s[2..])
  }

  lemma {:induction false} DecodeLowerHex(bytes: seq<byte>)
    ensures DecodeHex(LowerHex(bytes)) == bytes
  {
    if bytes != [] {
      var s := LowerHex(bytes);
      var b := bytes[0];
      HexValueOfDigit(b / 16);
      HexValueOfDigit(b % 16);
      assert HexValue(s[0]) * 16 + HexValue(s[1]) == b;
      assert s[2..] == LowerHex(bytes[1..]);
      DecodeLowerHex(bytes[1..]);
      assert [bytes[0]] + bytes[1..] == bytes;
    }
  }

  /** An HMAC-SHA-256 digest: 32 bytes. */
  type Digest = d: seq<byte> | |d| == 32 witness seq(32, _ => 0)

  /**
   * GenerateBindKey: the hex digest of the keyed hash of BindMessage under the server secret.
   * `hmacSha256(key, message)` is the keyed hash; `timestamp` is the clock reading in Unix seconds.
   */
  function GenerateBindKey(deviceID: string, serverSecret: string, userID: nat, timestamp: int,
                           hmacSha256: (string, string) -> Digest): (key: string)
    ensures |key| == 64
    ensures forall i :: 0 <= i < |key| ==> IsLowerHexDigit(key[i])
    ensures DecodeHex(key) == hmacSha256(serverSecret, BindMessage(deviceID, userID, timestamp))
  {
    var digest := hmacSha256(serverSecret, BindMessage(deviceID, userID, timestamp));
    DecodeLowerHex(digest);
    LowerHex(digest)
  }
}
