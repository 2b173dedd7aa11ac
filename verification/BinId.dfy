/** Bin ids: 16 random bytes in lower-case hexadecimal, and the test that routes only such ids. */
module BinId {
  import opened Limits

  type Byte = b: int | 0 <= b < 256

  function HexDigit(n: int): (c: char)
    requires 0 <= n < 16
    ensures IsHex(c)
  {
    if n < 10 then (n + '0' as int) as char else (n - 10 + 'a' as int) as char
  }

  predicate IsHex(c: char) {
    '0' <= c <= '9' || 'a' <= c <= 'f'
  }

  function HexValue(c: char): (n: int)
    requires IsHex(c)
    ensures 0 <= n < 16 && HexDigit(n) == c
  {
    if c <= '9' then c as int - '0' as int else c as int - 'a' as int + 10
  }

  function Encode(bytes: seq<Byte>): (id: string)
    ensures |id| == 2 * |bytes|
  {
    if bytes == [] then ""
    else [HexDigit(bytes[0] / 16), HexDigit(bytes[0] % 16)] + Encode(bytes[1..])
  }

  predicate AllHex(id: string) {
    forall i :: 0 <= i < |id| ==> IsHex(id[i])
  }

  function Decode(id: string): (bytes: seq<Byte>)
    requires |id| % 2 == 0 && AllHex(id)
    ensures |bytes| == |id| / 2
  {
    if id == "" then []
    else
      assert AllHex(id[2..]) by { assert forall i :: 0 <= i < |id[2..]| ==> id[2..][i] == id[i + 2]; }
      [16 * HexValue(id[0]) + HexValue(id[1])] + Decode(id[2..])
  }

  predicate IsBinId(id: string) {
    |id| == 2 * ID_BYTES && AllHex(id)
  }

  method LooksLikeBinId(id: string) returns (ok: bool)
    ensures ok <==> IsBinId(id)
    ensures ok <==> exists bytes: seq<Byte> :: |bytes| == ID_BYTES && Encode(bytes) == id
  {
    AcceptsExactlyEncodings(id);
    if |id| != ID_BYTES * 2 {
      return false;
    }
    for i := 0 to |id|
      invariant forall j :: 0 <= j < i ==> IsHex(id[j])
    {
      if !IsHex(id[i]) {
        return false;
      }
    }
    return true;
  }

  lemma {:induction false} EncodeIsHex(bytes: seq<Byte>)
    ensures AllHex(Encode(bytes))
  {
    if bytes == [] {
    } else {
      EncodeIsHex(bytes[1..]);
      var id := Encode(bytes);
      forall i | 0 <= i < |id| ensures IsHex(id[i]) {
        if i >= 2 { assert id[i] == Encode(bytes[1..])[i - 2]; }
      }
    }
  }

  /** Two digits for each byte, in the order of the bytes, the higher four bits first. */
  lemma {:induction false} EncodeIs(bytes: seq<Byte>, i: nat)
    requires i < |bytes|
    ensures var digits := "0123456789abcdef";
      && Encode(bytes)[2 * i] == digits[bytes[i] / 16]
      && Encode(bytes)[2 * i + 1] == digits[bytes[i] % 16]
    decreases i
  {
    HexDigitIs(bytes[i] / 16);
    HexDigitIs(bytes[i] % 16);
    var id := Encode(bytes);
    if i == 0 {
      assert id[0] == HexDigit(bytes[0] / 16) && id[1] == HexDigit(bytes[0] % 16);
    } else {
      EncodeIs(bytes[1..], i - 1);
      assert id[2 * i] == Encode(bytes[1..])[2 * (i - 1)] && id[2 * i + 1] == Encode(bytes[1..])[2 * (i - 1) + 1];
    }
  }

  lemma HexDigitIs(n: int)
    requires 0 <= n < 16
    ensures HexDigit(n) == "0123456789abcdef"[n]
  {
    assert '0' as int == 48 && 'a' as int == 97;
  }

  lemma {:induction false} DecodeEncode(bytes: seq<Byte>)
    ensures AllHex(Encode(bytes)) && Decode(Encode(bytes)) == bytes
  {
    EncodeIsHex(bytes);
    if bytes == [] {
    } else {
      DecodeEncode(bytes[1..]);
      assert Encode(bytes)[2..] == Encode(bytes[1..]);
    }
  }

  lemma {:induction false} EncodeDecode(id: string)
    requires |id| % 2 == 0 && AllHex(id)
    ensures Encode(Decode(id)) == id
    decreases |id|
  {
    if id == "" {
    } else {
      assert AllHex(id[2..]) by { assert forall i :: 0 <= i < |id[2..]| ==> id[2..][i] == id[i + 2]; }
      EncodeDecode(id[2..]);
      assert Decode(id)[1..] == Decode(id[2..]);
      assert id == [id[0], id[1]] + id[2..];
    }
  }

  /** The test accepts exactly the ids newID can make. */
  lemma AcceptsExactlyEncodings(id: string)
    ensures IsBinId(id) <==> exists bytes: seq<Byte> :: |bytes| == ID_BYTES && Encode(bytes) == id
  {
    if IsBinId(id) {
      EncodeDecode(id);
      assert |Decode(id)| == ID_BYTES;
    }
    forall bytes: seq<Byte> | |bytes| == ID_BYTES && Encode(bytes) == id ensures IsBinId(id) {
      EncodeIsHex(bytes);
    }
  }
}
