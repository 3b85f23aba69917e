// The two builders of time-ordered identifiers (version 7, section 5.7 of RFC 9562): one from hexadecimal digits
// (e2e/cut-0/host-endpoint.e2e.ts), one by overwriting bytes (e2e/cut-2/claude-hooks-toggle.e2e.ts).
module Uuid {

  const DIGITS: string := "0123456789abcdef"

  // The first time that needs more than 48 bits.
  const TIME_LIMIT: nat := 0x1_0000_0000_0000

  function Digit(n: nat): char
    requires n < 16
  {
    DIGITS[n]
  }

  predicate IsHex(c: char) {
    '0' <= c <= '9' || 'a' <= c <= 'f'
  }

  function DigitValue(c: char): (n: nat)
    requires IsHex(c)
    ensures n < 16
  {
    if c <= '9' then c as int - '0' as int else c as int - 'a' as int + 10
  }

  // `n.toString(16)`
  function HexText(n: nat): (s: string)
    ensures s != ""
  {
    if n < 16 then [Digit(n)] else HexText(n / 16) + [Digit(n % 16)]
  }

  // `s.padStart(width, '0')`
  function PadStart(s: string, width: nat): string {
    if |s| >= width then s else seq(width - |s|, _ => '0') + s
  }

  // The 8-4-4-4-12 form of 32 digits.
  function Dashed(v: string): (r: string)
    requires |v| >= 32
    ensures |r| == 36
  {
    v[0..8] + "-" + v[8..12] + "-" + v[12..16] + "-" + v[16..20] + "-" + v[20..32]
  }

  // ---- From hexadecimal digits ----

  // `uuidv7()`, `rest` being the 32 digits of a random UUID.
  function FromDigits(now: nat, rest: string): string
    requires |rest| == 32 && forall c | c in rest :: IsHex(c)
  {
    var hex := PadStart(HexText(now), 12);
    assert rest[16] in rest;
    Dashed(DigitsOf(hex, rest))
  }

  function DigitsOf(time: string, rest: string): (v: string)
    requires |rest| == 32 && IsHex(rest[16])
    ensures |v| == |time| + 20
  {
    time + "7" + rest[13..16] + [Digit(8 + DigitValue(rest[16]) % 4)] + rest[17..32]
  }

  // ---- From bytes ----

  // The 48-bit big-endian form of a time.
  function BigEndian(n: nat, width: nat): (r: seq<bv8>)
    ensures |r| == width
  {
    if width == 0 then [] else BigEndian(n / 256, width - 1) + [(n % 256) as bv8]
  }

  function HexOfByte(b: bv8): string {
    [Digit(b as int / 16), Digit(b as int % 16)]
  }

  function HexOf(bytes: seq<bv8>): (r: string)
    ensures |r| == 2 * |bytes|
  {
    if bytes == [] then "" else HexOf(bytes[..|bytes| - 1]) + HexOfByte(bytes[|bytes| - 1])
  }

  // The bytes the builder prints: the time in the first six, then the random ones under the version and the variant.
  function Stamped(now: nat, random: seq<bv8>): seq<bv8>
    requires |random| == 16
  {
    BigEndian(now, 6) + [0x70 | (random[6] & 0x0f)] + [random[7]] + [0x80 | (random[8] & 0x3f)] + random[9..16]
  }

  datatype Built = OutOfRange | Built(text: string)

  // `uuidV7()` over a buffer of random bytes; a time of more than 48 bits does not fit and throws.
  method FromBytes(now: nat, bytes: array<bv8>) returns (r: Built)
    requires bytes.Length == 16
    modifies bytes
    ensures now >= TIME_LIMIT ==> r == OutOfRange && bytes[..] == old(bytes[..])
    ensures now < TIME_LIMIT ==> bytes[..] == Stamped(now, old(bytes[..])) && r == Built(Dashed(HexOf(bytes[..])))
  {
    if now >= TIME_LIMIT {
      return OutOfRange;
    }
    WriteTime(now, bytes);
    bytes[6] := 0x70 | (bytes[6] & 0x0f);
    bytes[8] := 0x80 | (bytes[8] & 0x3f);
    r := Built(Dashed(HexOf(bytes[..])));
  }

  // `bytes.writeUIntBE(now, 0, 6)`
  method WriteTime(now: nat, bytes: array<bv8>)
    requires bytes.Length == 16 && now < TIME_LIMIT
    modifies bytes
    ensures bytes[..] == BigEndian(now, 6) + old(bytes[..])[6..]
  {
    var left, at := now, 6;
    while at > 0
      invariant 0 <= at <= 6
      invariant BigEndian(left, at) + bytes[at..6] == BigEndian(now, 6)
      invariant bytes[6..] == old(bytes[6..])
    {
      at := at - 1;
      bytes[at] := (left % 256) as bv8;
      left := left / 256;
    }
  }
}
