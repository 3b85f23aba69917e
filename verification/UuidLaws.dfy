// What both builders of version 7 identifiers promise: their form, that they agree, and that they sort by time.
module UuidLaws {
  import opened Uuid

  // ---- A time in twelve digits ----

  function Pow16(width: nat): nat {
    if width == 0 then 1 else 16 * Pow16(width - 1)
  }

  // The last `width` hexadecimal digits of a number.
  function FixedHex(n: nat, width: nat): (s: string)
    ensures |s| == width
    ensures forall c | c in s :: IsHex(c)
  {
    if width == 0 then ""
    else
      DigitIsHex(n % 16);
      FixedHex(n / 16, width - 1) + [Digit(n % 16)]
  }

  lemma DigitIsHex(n: nat)
    requires n < 16
    ensures IsHex(Digit(n)) && DigitValue(Digit(n)) == n
  {
  }

  lemma {:induction false} ZerosAreFixed(width: nat)
    ensures FixedHex(0, width) == seq(width, _ => '0')
  {
    if width > 0 {
      ZerosAreFixed(width - 1);
    }
  }

  lemma FitsAfterOneDigit(n: nat, limit: nat)
    requires n < 16 * limit
    ensures n / 16 < limit
  {
  }

  // Padding the digits of a number to a width it fits in gives its last digits of that width.
  lemma {:induction false} PaddedIsFixed(n: nat, width: nat)
    requires width > 0 && n < Pow16(width)
    ensures PadStart(HexText(n), width) == FixedHex(n, width)
    ensures |HexText(n)| <= width
  {
    if n < 16 {
      ZerosAreFixed(width - 1);
    } else {
      FitsAfterOneDigit(n, Pow16(width - 1));
      assert Pow16(1) == 16 * Pow16(0);
      PaddedIsFixed(n / 16, width - 1);
    }
  }

  lemma TimeFits(now: nat)
    requires now < TIME_LIMIT
    ensures now < Pow16(12)
  {
    assert Pow16(4) == 0x1_0000;
    assert Pow16(8) == 0x1_0000_0000;
    assert Pow16(12) == TIME_LIMIT;
  }

  lemma TwoDigits(n: nat)
    ensures n / 16 / 16 == n / 256
    ensures n % 256 / 16 == n / 16 % 16 && n % 256 % 16 == n % 16
  {
  }

  lemma ByteOfTime(n: nat)
    ensures HexOfByte((n % 256) as bv8) == [Digit(n / 16 % 16)] + [Digit(n % 16)]
  {
    TwoDigits(n);
    ByteBack(n % 256);
  }

  lemma {:induction false} ByteBack(n: nat)
    requires n < 256
    ensures n as bv8 as int == n
  {
    if n > 0 {
      ByteBack(n - 1);
      NextByte((n - 1) as bv8);
    }
  }

  lemma NextByte(b: bv8)
    requires b < 255
    ensures (b + 1) as int == b as int + 1
  {
  }

  lemma TwoDigitsMore(n: nat, width: nat)
    ensures FixedHex(n, width + 2) == FixedHex(n / 256, width) + ([Digit(n / 16 % 16)] + [Digit(n % 16)])
  {
    TwoDigits(n);
    var before := FixedHex(n / 16 / 16, width);
    assert FixedHex(n / 16, width + 1) == before + [Digit(n / 16 % 16)];
    assert before + [Digit(n / 16 % 16)] + [Digit(n % 16)] == before + ([Digit(n / 16 % 16)] + [Digit(n % 16)]);
  }

  lemma {:induction false} BytesAreFixed(n: nat, width: nat)
    ensures HexOf(BigEndian(n, width)) == FixedHex(n, 2 * width)
  {
    if width > 0 {
      BytesAreFixed(n / 256, width - 1);
      assert BigEndian(n, width)[..width - 1] == BigEndian(n / 256, width - 1);
      ByteOfTime(n);
      TwoDigitsMore(n, 2 * (width - 1));
    }
  }

  // ---- The two builders agree ----

  lemma {:induction false} HexOfAppend(a: seq<bv8>, b: seq<bv8>)
    ensures HexOf(a + b) == HexOf(a) + HexOf(b)
  {
    if b == [] {
      assert a + b == a;
    } else {
      assert (a + b)[..|a + b| - 1] == a + b[..|b| - 1];
      HexOfAppend(a, b[..|b| - 1]);
    }
  }

  lemma OneByte(b: bv8)
    ensures HexOf([b]) == HexOfByte(b)
  {
    assert [b][..0] == [];
  }

  lemma {:induction false} HexOfIsHex(bytes: seq<bv8>)
    ensures forall c | c in HexOf(bytes) :: IsHex(c)
  {
    if bytes != [] {
      var b := bytes[|bytes| - 1];
      HexOfIsHex(bytes[..|bytes| - 1]);
      DigitIsHex(b as int / 16);
      DigitIsHex(b as int % 16);
    }
  }

  lemma HexOfParts(head: seq<bv8>, x: bv8, y: bv8, z: bv8, tail: seq<bv8>)
    ensures HexOf(head + [x] + [y] + [z] + tail)
         == HexOf(head) + HexOfByte(x) + HexOfByte(y) + HexOfByte(z) + HexOf(tail)
  {
    HexOfAppend(head + [x] + [y] + [z], tail);
    HexOfAppend(head + [x] + [y], [z]);
    HexOfAppend(head + [x], [y]);
    HexOfAppend(head, [x]);
    OneByte(x);
    OneByte(y);
    OneByte(z);
  }

  lemma VersionDigits(b: bv8)
    ensures HexOfByte(0x70 | (b & 0x0f)) == "7" + [Digit(b as int % 16)]
  {
    assert (0x70 | (b & 0x0f)) as int == 0x70 + b as int % 16;
    assert Digit(7) == '7';
  }

  lemma VariantBits(b: bv8)
    ensures (0x80 | (b & 0x3f)) as int == 0x80 + b as int % 64
  {
  }

  lemma VariantNibbles(n: nat)
    requires n < 256
    ensures (0x80 + n % 64) / 16 == 8 + n / 16 % 4 && (0x80 + n % 64) % 16 == n % 16
  {
    var high, low := n / 16, n % 16;
    assert n == 64 * (high / 4) + (16 * (high % 4) + low);
    assert n % 64 == 16 * (high % 4) + low;
  }

  lemma VariantDigits(b: bv8)
    ensures HexOfByte(0x80 | (b & 0x3f)) == [Digit(8 + b as int / 16 % 4)] + [Digit(b as int % 16)]
  {
    VariantBits(b);
    VariantNibbles(b as int);
  }

  // Where the digits of the random bytes end up.
  lemma DigitsOfParts(time: string, head: string, x: string, y: string, z: string, tail: string)
    requires |head| == 12 && |x| == |y| == |z| == 2 && |tail| == 14
    requires IsHex(z[0])
    ensures DigitsOf(time, head + x + y + z + tail)
         == time + "7" + [x[1]] + y + [Digit(8 + DigitValue(z[0]) % 4)] + [z[1]] + tail
  {
    var rest := head + x + y + z + tail;
    assert rest[16] == z[0];
    assert rest[13..16] == [x[1]] + y;
    assert rest[17..32] == [z[1]] + tail;
  }

  lemma Regroup(t: string, a: string, b: string, y: string, c: string, d: string, tail: string)
    ensures t + (a + b) + y + (c + d) + tail == t + a + b + y + c + d + tail
  {
    assert t + (a + b) == t + a + b;
    assert (t + a + b + y) + (c + d) == (t + a + b + y) + c + d;
  }

  lemma StampedParts(now: nat, x: bv8, y: bv8, z: bv8, tail: seq<bv8>)
    ensures HexOf(BigEndian(now, 6) + [0x70 | (x & 0x0f)] + [y] + [0x80 | (z & 0x3f)] + tail)
         == FixedHex(now, 12) + "7" + [Digit(x as int % 16)] + HexOfByte(y)
            + [Digit(8 + z as int / 16 % 4)] + [Digit(z as int % 16)] + HexOf(tail)
  {
    HexOfParts(BigEndian(now, 6), 0x70 | (x & 0x0f), y, 0x80 | (z & 0x3f), tail);
    TimeBytes(now);
    VersionDigits(x);
    VariantDigits(z);
    Regroup(FixedHex(now, 12), "7", [Digit(x as int % 16)], HexOfByte(y),
            [Digit(8 + z as int / 16 % 4)], [Digit(z as int % 16)], HexOf(tail));
  }

  lemma TimeBytes(now: nat)
    ensures HexOf(BigEndian(now, 6)) == FixedHex(now, 12)
  {
    BytesAreFixed(now, 6);
  }

  lemma RandomParts(random: seq<bv8>) returns (head: string, tail: string)
    requires |random| == 16
    ensures |head| == 12 && |tail| == 14 && tail == HexOf(random[9..16])
    ensures HexOf(random) == head + HexOfByte(random[6]) + HexOfByte(random[7]) + HexOfByte(random[8]) + tail
  {
    head, tail := HexOf(random[..6]), HexOf(random[9..16]);
    assert random == random[..6] + [random[6]] + [random[7]] + [random[8]] + random[9..16];
    HexOfParts(random[..6], random[6], random[7], random[8], random[9..16]);
  }

  // Over the same time and the same random bits the bytes print the digits the other builder puts together.
  lemma StampedDigits(now: nat, random: seq<bv8>)
    requires |random| == 16
    ensures IsHex(HexOf(random)[16])
    ensures HexOf(Stamped(now, random)) == DigitsOf(FixedHex(now, 12), HexOf(random))
  {
    var x, y, z := random[6], random[7], random[8];
    var head, tail := RandomParts(random);
    DigitIsHex(z as int / 16);
    DigitsOfParts(FixedHex(now, 12), head, HexOfByte(x), HexOfByte(y), HexOfByte(z), tail);
    StampedParts(now, x, y, z, random[9..16]);
  }

  lemma BuildersAgree(now: nat, random: seq<bv8>)
    requires |random| == 16 && now < TIME_LIMIT
    ensures forall c | c in HexOf(random) :: IsHex(c)
    ensures FromDigits(now, HexOf(random)) == Dashed(HexOf(Stamped(now, random)))
  {
    HexOfIsHex(random);
    StampedDigits(now, random);
    TimeFits(now);
    PaddedIsFixed(now, 12);
  }

  // ---- The form ----

  // 36 characters in groups of 8, 4, 4, 4 and 12 digits, version 7 and variant 10.
  ghost predicate IsVersion7(u: string) {
    && |u| == 36
    && (forall i | 0 <= i < 36 :: if i == 8 || i == 13 || i == 18 || i == 23 then u[i] == '-' else IsHex(u[i]))
    && u[14] == '7'
    && 8 <= DigitValue(u[19]) < 12
  }

  lemma DigitsAreHex(time: string, rest: string)
    requires |rest| == 32 && (forall c | c in rest :: IsHex(c))
    requires |time| == 12 && (forall c | c in time :: IsHex(c))
    ensures IsHex(rest[16])
    ensures forall i | 0 <= i < 32 :: IsHex(DigitsOf(time, rest)[i])
    ensures DigitsOf(time, rest)[12] == '7' && 8 <= DigitValue(DigitsOf(time, rest)[16]) < 12
  {
    assert rest[16] in rest;
    DigitIsHex(8 + DigitValue(rest[16]) % 4);
    var v := DigitsOf(time, rest);
    forall i | 0 <= i < 32 ensures IsHex(v[i]) {
      if i < 12 { assert v[i] in time; }
      else if 13 <= i < 16 { assert v[i] == rest[i] && rest[i] in rest; }
      else if 17 <= i { assert v[i] == rest[i] && rest[i] in rest; }
    }
  }

  lemma DashedForm(v: string)
    requires |v| == 32 && (forall i | 0 <= i < 32 :: IsHex(v[i]))
    requires v[12] == '7' && 8 <= DigitValue(v[16]) < 12
    ensures IsVersion7(Dashed(v))
    ensures Dashed(v)[..8] == v[..8] && Dashed(v)[8] == '-' && Dashed(v)[9..13] == v[8..12]
  {
  }

  lemma FollowsVersion7(now: nat, rest: string)
    requires now < TIME_LIMIT
    requires |rest| == 32 && forall c | c in rest :: IsHex(c)
    ensures IsVersion7(FromDigits(now, rest))
    ensures FromDigits(now, rest)[..8] + FromDigits(now, rest)[9..13] == FixedHex(now, 12)
  {
    TimeFits(now);
    PaddedIsFixed(now, 12);
    var time := FixedHex(now, 12);
    DigitsAreHex(time, rest);
    DashedForm(DigitsOf(time, rest));
    assert time[..8] + time[8..12] == time;
  }

  // ---- The order ----

  // String order: the first character that differs decides.
  ghost predicate Below(a: string, b: string) {
    exists i | 0 <= i < |a| && i < |b| :: a[..i] == b[..i] && a[i] < b[i]
  }

  lemma {:induction false} FixedHexInOrder(a: nat, b: nat, width: nat)
    requires a < b < Pow16(width)
    ensures Below(FixedHex(a, width), FixedHex(b, width))
  {
    var s, t := FixedHex(a / 16, width - 1), FixedHex(b / 16, width - 1);
    var u, v := FixedHex(a, width), FixedHex(b, width);
    if a / 16 < b / 16 {
      FixedHexInOrder(a / 16, b / 16, width - 1);
      var i :| 0 <= i < |s| && i < |t| && s[..i] == t[..i] && s[i] < t[i];
      assert u[..i] == s[..i] && v[..i] == t[..i] && u[i] == s[i] && v[i] == t[i];
    } else {
      assert a / 16 == b / 16;
      assert a % 16 < b % 16;
      assert u[..width - 1] == v[..width - 1];
      assert u[width - 1] < v[width - 1];
    }
  }

  // Identifiers sort by their times whenever those differ, whatever the random digits.
  lemma SortsByTime(earlier: nat, later: nat, rest: string, others: string)
    requires earlier < later < TIME_LIMIT
    requires |rest| == 32 && forall c | c in rest :: IsHex(c)
    requires |others| == 32 && forall c | c in others :: IsHex(c)
    ensures Below(FromDigits(earlier, rest), FromDigits(later, others))
  {
    FollowsVersion7(earlier, rest);
    FollowsVersion7(later, others);
    TimeFits(later);
    FixedHexInOrder(earlier, later, 12);
    DashedInOrder(FromDigits(earlier, rest), FromDigits(later, others), FixedHex(earlier, 12), FixedHex(later, 12));
  }

  // The dash after eight digits keeps the order of the twelve.
  lemma DashedInOrder(u: string, v: string, a: string, b: string)
    requires |u| == |v| == 36 && |a| == |b| == 12 && u[8] == v[8]
    requires u[..8] + u[9..13] == a && v[..8] + v[9..13] == b && Below(a, b)
    ensures Below(u, v)
  {
    var i :| 0 <= i < 12 && a[..i] == b[..i] && a[i] < b[i];
    var at := if i < 8 then i else i + 1;
    FirstDigits(u, a);
    FirstDigits(v, b);
    forall j | 0 <= j < at ensures u[j] == v[j] {
      if j < 8 {
        assert a[..i][j] == b[..i][j];
      } else if j > 8 {
        assert a[..i][j - 1] == b[..i][j - 1];
        assert u[(j - 1) + 1] == v[(j - 1) + 1];
      }
    }
    assert u[..at] == v[..at] && u[at] < v[at];
  }

  lemma FirstDigits(u: string, a: string)
    requires |u| == 36 && u[..8] + u[9..13] == a
    ensures |a| == 12
    ensures forall j | 0 <= j < 8 :: u[j] == a[j]
    ensures forall j | 8 <= j < 12 :: u[j + 1] == a[j]
  {
    assert forall j | 8 <= j < 12 :: a[j] == u[9..13][j - 8];
  }
}
