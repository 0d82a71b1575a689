/** Lower-case hexadecimal, as fingerprints and signatures are written. */
module Hex {
  import opened Types

  type Byte = x: int | 0 <= x < 256

  /** The table `0123456789abcdef`. */
  function EncodeDigit(d: int): char
    requires 0 <= d < 16
  {
    if d < 10 then ('0' as int + d) as char else ('a' as int + (d - 10)) as char
  }

  function Digit(c: char): Option<int> {
    if '0' <= c <= '9' then Option.Some(c as int - '0' as int)
    else if 'a' <= c <= 'f' then Option.Some(c as int - 'a' as int + 10)
    else Option.None
  }

  /** The byte that a pair of digits spells, if both are lower-case hexadecimal. */
  function Pair(high: char, low: char): (b: Option<Byte>) {
    if Digit(high).Some? && Digit(low).Some?
    then Option.Some(Digit(high).value * 16 + Digit(low).value)
    else Option.None
  }

  lemma PairSpells(b: Byte)
    ensures Pair(EncodeDigit(b / 16), EncodeDigit(b % 16)) == Option.Some(b)
  {
  }

  lemma SpellsPair(high: char, low: char)
    requires Pair(high, low).Some?
    ensures var b := Pair(high, low).value; EncodeDigit(b / 16) == high && EncodeDigit(b % 16) == low
  {
  }

  function Encode(bytes: seq<Byte>): string {
    if bytes == [] then ""
    else
      var b := bytes[|bytes| - 1];
      Encode(bytes[..|bytes| - 1]) + [EncodeDigit(b / 16), EncodeDigit(b % 16)]
  }

  /** Digit pairs, taken from the back; anything else is refused. */
  function Decode(value: string): Option<seq<Byte>> {
    if value == "" then Option.Some([])
    else if |value| == 1 then Option.None
    else
      var n := |value|;
      var front, last := Decode(value[..n - 2]), Pair(value[n - 2], value[n - 1]);
      if front.Some? && last.Some? then Option.Some(front.value + [last.value]) else Option.None
  }

  /** Decoding undoes encoding. */
  lemma {:induction false} RoundTrip(bytes: seq<Byte>)
    ensures |Encode(bytes)| == 2 * |bytes| && Decode(Encode(bytes)) == Option.Some(bytes)
  {
    if bytes == [] {
    } else {
      var front, b := bytes[..|bytes| - 1], bytes[|bytes| - 1];
      RoundTrip(front);
      PairSpells(b);
      var s := Encode(front) + [EncodeDigit(b / 16), EncodeDigit(b % 16)];
      assert s[..|s| - 2] == Encode(front);
      assert bytes == front + [b];
    }
  }

  /** Encoding undoes decoding, so no two spellings name the same bytes. */
  lemma {:induction false} DecodeEncodes(value: string)
    requires Decode(value).Some?
    ensures Encode(Decode(value).value) == value
  {
    if value == "" {
    } else {
      var n := |value|;
      var front, b := Decode(value[..n - 2]).value, Pair(value[n - 2], value[n - 1]).value;
      DecodeEncodes(value[..n - 2]);
      SpellsPair(value[n - 2], value[n - 1]);
      assert (front + [b])[..|front|] == front;
      assert value == value[..n - 2] + [value[n - 2], value[n - 1]];
    }
  }

  /** A string is refused when it has odd length or a character that is not a lower-case digit. */
  lemma {:induction false} DecodeAccepts(value: string)
    ensures Decode(value).Some? <==> |value| % 2 == 0 && forall i :: 0 <= i < |value| ==> Digit(value[i]).Some?
  {
    if |value| >= 2 {
      var n := |value|;
      DecodeAccepts(value[..n - 2]);
      assert forall i :: 0 <= i < n - 2 ==> value[..n - 2][i] == value[i];
    }
  }

  method EncodeHex(bytes: seq<Byte>) returns (output: string)
    ensures output == Encode(bytes)
  {
    output := "";
    for i := 0 to |bytes|
      invariant output == Encode(bytes[..i])
    {
      assert bytes[..i + 1][..i] == bytes[..i];
      output := output + [EncodeDigit(bytes[i] / 16)];
      output := output + [EncodeDigit(bytes[i] % 16)];
    }
    assert bytes[..|bytes|] == bytes;
  }

  /** `decode_hex::<N>`: exactly `n` bytes, pair by pair. */
  method DecodeHex(n: nat, value: string) returns (r: Option<seq<Byte>>)
    ensures r == if |value| == 2 * n then Decode(value) else Option.None
  {
    if |value| != 2 * n {
      return Option.None;
    }
    var result: seq<Byte> := [];
    for i := 0 to n
      invariant Decode(value[..2 * i]) == Option.Some(result)
    {
      DecodePrefix(value, 2 * i + 2);
      assert value[..2 * i + 2][..2 * i] == value[..2 * i];
      var byte := Pair(value[2 * i], value[2 * i + 1]);
      if byte.None? {
        DecodePrefix(value, 2 * n);
        assert value[..2 * n] == value;
        return Option.None;
      }
      result := result + [byte.value];
    }
    assert value[..2 * n] == value;
    r := Option.Some(result);
  }

  lemma {:induction false} DecodePrefix(value: string, n: nat)
    requires n <= |value| && (|value| - n) % 2 == 0
    ensures Decode(value[..n]).None? ==> Decode(value).None?
    decreases |value|
  {
    if n < |value| {
      var front := value[..|value| - 2];
      DecodePrefix(front, n);
      assert front[..n] == value[..n];
    } else {
      assert value[..n] == value;
    }
  }
}
