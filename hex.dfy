/** `bytes.fromhex`, which turns a page's encryption key into the XOR key bytes, following
    CPython's decoder: a string holding a non-ASCII character is refused at the first such
    character; otherwise ASCII whitespace is skipped before each pair of hexadecimal digits,
    and the first character that is not a digit where one is expected (the end of the string
    included) is reported by its position. */
module Hex {
  import opened Errors
  import opened Bytes

  /** Python's `Py_ISSPACE`: space, tab, line feed, vertical tab, form feed, carriage return. */
  predicate IsSpace(c: char) {
    c == ' ' || c == '\t' || c == '\n' || c == '\r' || c as int == 11 || c as int == 12
  }

  /** The value of a hexadecimal digit in either case, or 16 for any other character. */
  function DigitValue(c: char): (v: nat)
    ensures v <= 16
  {
    if '0' <= c <= '9' then c as int - '0' as int
    else if 'a' <= c <= 'f' then c as int - 'a' as int + 10
    else if 'A' <= c <= 'F' then c as int - 'A' as int + 10
    else 16
  }

  predicate IsHexDigit(c: char) { DigitValue(c) < 16 }

  /** The position of the first non-ASCII character of `s`, or `|s|` when there is none. */
  function FirstNonAscii(s: string): (i: nat)
    ensures i <= |s|
    ensures forall j :: 0 <= j < i ==> s[j] as int < 128
    ensures i < |s| ==> s[i] as int >= 128
  {
    if s == [] then 0
    else if s[0] as int >= 128 then 0
    else 1 + FirstNonAscii(s[1..])
  }

  /** The decoding of `rest`, the part of the argument that starts at position `pos`. */
  function Pairs(rest: string, pos: nat): (r: Result<seq<byte>>)
    ensures r.Ok? ==> 2 * |r.value| <= |rest|
    ensures r.Err? ==> r.error.NonHexadecimal? && pos <= r.error.position <= pos + |rest|
    decreases |rest|
  {
    if rest == [] then Ok([])
    else if IsSpace(rest[0]) then Pairs(rest[1..], pos + 1)
    else if !IsHexDigit(rest[0]) then Err(NonHexadecimal(pos))
    else if |rest| == 1 || !IsHexDigit(rest[1]) then Err(NonHexadecimal(pos + 1))
    else
      var tail :- Pairs(rest[2..], pos + 2);
      Ok([(DigitValue(rest[0]) * 16 + DigitValue(rest[1])) as byte] + tail)
  }

  /** `bytes.fromhex(s)`: at most one byte per two characters, and every failure names a
      position within the string or just past its end. */
  function FromHex(s: string): (r: Result<seq<byte>>)
    ensures r.Ok? ==> 2 * |r.value| <= |s|
    ensures r.Err? ==> r.error.NonHexadecimal? && r.error.position <= |s|
  {
    var bad := FirstNonAscii(s);
    if bad < |s| then Err(NonHexadecimal(bad)) else Pairs(s, 0)
  }

  /** The lower-case digit of a value below 16. */
  function HexDigit(v: nat): (c: char)
    requires v < 16
  {
    if v < 10 then ('0' as int + v) as char else ('a' as int + v - 10) as char
  }

  /** `bytes.hex()`: two lower-case digits per byte, the inverse of `FromHex`. */
  function ToHex(b: seq<byte>): string {
    if b == [] then "" else [HexDigit(b[0] as int / 16), HexDigit(b[0] as int % 16)] + ToHex(b[1..])
  }

  predicate NoSpace(s: string) {
    forall i :: 0 <= i < |s| ==> !IsSpace(s[i])
  }

  predicate AllHexDigits(s: string) {
    forall i :: 0 <= i < |s| ==> IsHexDigit(s[i])
  }

  lemma {:induction false} PairsOfHexDigits(rest: string, pos: nat)
    requires NoSpace(rest)
    ensures Pairs(rest, pos).Ok? <==> |rest| % 2 == 0 && AllHexDigits(rest)
    ensures Pairs(rest, pos).Ok? ==> |Pairs(rest, pos).value| == |rest| / 2
    decreases |rest|
  {
    if rest != [] {
      assert !IsSpace(rest[0]);
      if IsHexDigit(rest[0]) && |rest| > 1 && IsHexDigit(rest[1]) {
        assert NoSpace(rest[2..]) by {
          forall i | 0 <= i < |rest[2..]| ensures !IsSpace(rest[2..][i]) { assert rest[2..][i] == rest[i + 2]; }
        }
        PairsOfHexDigits(rest[2..], pos + 2);
        if AllHexDigits(rest) {
          forall i | 0 <= i < |rest[2..]| ensures IsHexDigit(rest[2..][i]) { assert rest[2..][i] == rest[i + 2]; }
        }
        if AllHexDigits(rest[2..]) {
          forall i | 0 <= i < |rest| ensures IsHexDigit(rest[i]) {
            if i >= 2 { assert rest[i] == rest[2..][i - 2]; }
          }
        }
      }
    }
  }

  /** A key without whitespace decodes exactly when it is an even number of hexadecimal
      digits, and then to half as many bytes. */
  lemma FromHexAccepts(s: string)
    requires NoSpace(s)
    ensures FromHex(s).Ok? <==> |s| % 2 == 0 && AllHexDigits(s)
    ensures FromHex(s).Ok? ==> |FromHex(s).value| == |s| / 2
  {
    PairsOfHexDigits(s, 0);
    if AllHexDigits(s) && FirstNonAscii(s) < |s| {
      assert IsHexDigit(s[FirstNonAscii(s)]);
    }
  }

  /** A key of odd length without whitespace never decodes. */
  lemma OddLengthKeyFails(s: string)
    requires NoSpace(s) && |s| % 2 == 1
    ensures FromHex(s).Err?
  {
    FromHexAccepts(s);
  }

  lemma {:induction false} ToHexShape(b: seq<byte>)
    ensures |ToHex(b)| == 2 * |b|
    ensures AllHexDigits(ToHex(b)) && NoSpace(ToHex(b))
    ensures forall i :: 0 <= i < |ToHex(b)| ==> ToHex(b)[i] as int < 128
  {
    if b != [] {
      ToHexShape(b[1..]);
      var h := [HexDigit(b[0] as int / 16), HexDigit(b[0] as int % 16)];
      assert ToHex(b) == h + ToHex(b[1..]);
      forall i | 2 <= i < |ToHex(b)|
        ensures ToHex(b)[i] == ToHex(b[1..])[i - 2]
      {}
    }
  }

  lemma DigitOfHexDigit(v: nat)
    requires v < 16
    ensures IsHexDigit(HexDigit(v)) && DigitValue(HexDigit(v)) == v
  {}

  lemma ByteOfDigits(x: byte)
    ensures (DigitValue(HexDigit(x as int / 16)) * 16 + DigitValue(HexDigit(x as int % 16))) as byte == x
  {
    var hi, lo := x as int / 16, x as int % 16;
    DigitOfHexDigit(hi);
    DigitOfHexDigit(lo);
    assert hi * 16 + lo == x as int;
  }

  lemma PairsOfTwoDigits(s: string, pos: nat)
    requires |s| >= 2 && !IsSpace(s[0]) && IsHexDigit(s[0]) && IsHexDigit(s[1])
    requires Pairs(s[2..], pos + 2).Ok?
    ensures Pairs(s, pos) == Ok([(DigitValue(s[0]) * 16 + DigitValue(s[1])) as byte] + Pairs(s[2..], pos + 2).value)
  {}

  lemma ToHexFirstByte(b: seq<byte>)
    requires b != []
    ensures var s := ToHex(b);
      |s| >= 2 && s[0] == HexDigit(b[0] as int / 16) && s[1] == HexDigit(b[0] as int % 16)
      && s[2..] == ToHex(b[1..])
  {}

  lemma {:induction false} PairsOfToHex(b: seq<byte>, pos: nat)
    ensures Pairs(ToHex(b), pos) == Ok(b)
    decreases |b|
  {
    if b != [] {
      var s := ToHex(b);
      ToHexFirstByte(b);
      DigitOfHexDigit(b[0] as int / 16);
      DigitOfHexDigit(b[0] as int % 16);
      PairsOfToHex(b[1..], pos + 2);
      PairsOfTwoDigits(s, pos);
      ByteOfDigits(b[0]);
      assert b == [b[0]] + b[1..];
    }
  }

  /** `bytes.fromhex(b.hex()) == b` for every byte string `b`. */
  lemma HexRoundTrip(b: seq<byte>)
    ensures FromHex(ToHex(b)) == Ok(b)
  {
    ToHexShape(b);
    PairsOfToHex(b, 0);
  }
}
