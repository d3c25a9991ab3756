/** UUIDv7 (packages/shared/src/uuid.ts; section 5.7 of RFC 9562): 48 bits of time in front, so ids sort by creation. */
module Uuid {
  /** Byte i of the time field: nowMs / 2^(40 - 8 i), low eight bits. */
  function TimeByte(nowMs: nat, i: nat): nat
    requires i < 6
  {
    match i
    case 0 => nowMs / 0x100_0000_0000 % 256
    case 1 => nowMs / 0x1_0000_0000 % 256
    case 2 => nowMs / 0x100_0000 % 256
    case 3 => nowMs / 0x1_0000 % 256
    case 4 => nowMs / 0x100 % 256
    case 5 => nowMs % 256
  }

  predicate IsBytes(s: seq<nat>) { forall i :: 0 <= i < |s| ==> s[i] < 256 }

  /** The sixteen bytes, given the random ones. */
  function Layout(nowMs: nat, random: seq<nat>): (r: seq<nat>)
    requires |random| == 16 && IsBytes(random)
    ensures |r| == 16 && IsBytes(r)
  {
    [TimeByte(nowMs, 0), TimeByte(nowMs, 1), TimeByte(nowMs, 2), TimeByte(nowMs, 3), TimeByte(nowMs, 4),
      TimeByte(nowMs, 5),
     random[6] % 16 + 0x70, random[7], random[8] % 64 + 0x80] + random[9..]
  }

  function HexDigit(n: nat): char
    requires n < 16
  {
    if n < 10 then '0' + n as char else 'a' + (n - 10) as char
  }

  /** toString(16), padded to two digits. */
  function Hex(b: nat): string
    requires b < 256
  {
    [HexDigit(b / 16), HexDigit(b % 16)]
  }

  function HexAll(bytes: seq<nat>): (r: string)
    requires IsBytes(bytes)
    ensures |r| == 2 * |bytes|
  {
    if bytes == [] then "" else HexAll(bytes[..|bytes| - 1]) + Hex(bytes[|bytes| - 1])
  }

  function Dashed(hex: string): string
    requires |hex| == 32
  {
    hex[..8] + "-" + hex[8..12] + "-" + hex[12..16] + "-" + hex[16..20] + "-" + hex[20..]
  }

  function Text(nowMs: nat, random: seq<nat>): (r: string)
    requires |random| == 16 && IsBytes(random)
    ensures |r| == 36
  {
    Dashed(HexAll(Layout(nowMs, random)))
  }

  /** The assignments to the byte array; `random` is what getRandomValues fills in. */
  method Fill(nowMs: nat, random: seq<nat>) returns (bytes: array<nat>)
    requires |random| == 16 && IsBytes(random)
    ensures fresh(bytes) && bytes[..] == Layout(nowMs, random)
  {
    hide TimeByte;
    bytes := new nat[16](i requires 0 <= i < 16 => random[i]);
    bytes[0] := TimeByte(nowMs, 0);
    bytes[1] := TimeByte(nowMs, 1);
    bytes[2] := TimeByte(nowMs, 2);
    bytes[3] := TimeByte(nowMs, 3);
    bytes[4] := TimeByte(nowMs, 4);
    bytes[5] := TimeByte(nowMs, 5);
    bytes[6] := bytes[6] % 16 + 0x70;
    bytes[8] := bytes[8] % 64 + 0x80;
    var layout := Layout(nowMs, random);
    assert forall i :: 0 <= i < 16 ==> bytes[i] == layout[i];
  }

  /** The hexadecimal text of all bytes. */
  method JoinHex(bytes: array<nat>) returns (hex: string)
    requires IsBytes(bytes[..])
    ensures hex == HexAll(bytes[..])
  {
    hex := "";
    for n := 0 to bytes.Length
      invariant hex == HexAll(bytes[..n])
    {
      assert bytes[..n + 1][..n] == bytes[..n];
      assert bytes[n] == bytes[..][n];
      hex := hex + Hex(bytes[n]);
    }
    assert bytes[..bytes.Length] == bytes[..];
  }

  /** uuidv7 */
  method Uuidv7(nowMs: nat, random: seq<nat>) returns (text: string)
    requires |random| == 16 && IsBytes(random)
    ensures text == Text(nowMs, random)
  {
    var bytes := Fill(nowMs, random);
    var hex := JoinHex(bytes);
    text := Dashed(hex);
  }

  // ----- the time field as twelve hexadecimal digits -----

  function Digits16(v: nat, n: nat): (r: seq<nat>)
    ensures |r| == n && forall i :: 0 <= i < n ==> r[i] < 16
  {
    if n == 0 then [] else Digits16(v / 16, n - 1) + [v % 16]
  }

  function Value16(digits: seq<nat>): nat {
    if digits == [] then 0 else 16 * Value16(digits[..|digits| - 1]) + digits[|digits| - 1]
  }

  function Pow16(n: nat): nat { if n == 0 then 1 else 16 * Pow16(n - 1) }

  lemma {:induction false} DigitsReadBack(v: nat, n: nat)
    requires v < Pow16(n)
    ensures Value16(Digits16(v, n)) == v
  {
    if n > 0 {
      DigitsReadBack(v / 16, n - 1);
      assert Digits16(v, n)[..n - 1] == Digits16(v / 16, n - 1);
    }
  }

  /** The smaller number has the smaller digit where their digits first differ. */
  lemma {:induction false} SmallerFirst(a: nat, b: nat, n: nat) returns (k: nat)
    requires a < b < Pow16(n)
    ensures k < n && Digits16(a, n)[..k] == Digits16(b, n)[..k] && Digits16(a, n)[k] < Digits16(b, n)[k]
  {
    var x, y := Digits16(a, n), Digits16(b, n);
    assert x[..n - 1] == Digits16(a / 16, n - 1) && y[..n - 1] == Digits16(b / 16, n - 1);
    if a / 16 == b / 16 {
      k := n - 1;
    } else {
      k := SmallerFirst(a / 16, b / 16, n - 1);
      assert x[..k] == x[..n - 1][..k] && y[..k] == y[..n - 1][..k];
    }
  }

  /** The first n bytes that hold v, big-endian. */
  function Bytes(v: nat, n: nat): (r: seq<nat>)
    ensures |r| == n && IsBytes(r)
  {
    if n == 0 then [] else Bytes(v / 256, n - 1) + [v % 256]
  }

  function HexOf(digits: seq<nat>): string
    requires forall i :: 0 <= i < |digits| ==> digits[i] < 16
  {
    seq(|digits|, i requires 0 <= i < |digits| => HexDigit(digits[i]))
  }

  /** A byte is two digits. */
  lemma TwoDigits(v: nat, n: nat)
    ensures Digits16(v, n + 2) == Digits16(v / 256, n) + [v % 256 / 16, v % 256 % 16]
  {
    assert v / 16 / 16 == v / 256 && v % 256 / 16 == v / 16 % 16 && v % 256 % 16 == v % 16;
    assert Digits16(v, n + 2) == Digits16(v / 16 / 16, n) + [v / 16 % 16] + [v % 16];
  }

  lemma LastByte(v: nat, n: nat)
    requires n > 0
    ensures HexAll(Bytes(v, n)) == HexAll(Bytes(v / 256, n - 1)) + Hex(v % 256)
  {
    assert Bytes(v, n)[..n - 1] == Bytes(v / 256, n - 1);
  }

  lemma {:induction false} BytesAreDigits(v: nat, n: nat)
    ensures HexAll(Bytes(v, n)) == HexOf(Digits16(v, 2 * n))
  {
    if n == 0 {
      assert HexAll(Bytes(v, 0)) == "";
    } else {
      hide Digits16, HexDigit, HexAll, Bytes;
      BytesAreDigits(v / 256, n - 1);
      LastByte(v, n);
      TwoDigits(v, 2 * (n - 1));
    }
  }

  lemma TimeBytes(nowMs: nat)
    ensures forall i :: 0 <= i < 6 ==> TimeByte(nowMs, i) == Bytes(nowMs, 6)[i]
  {
    var a := nowMs / 256;
    var b := a / 256;
    var c := b / 256;
    var d := c / 256;
    var e := d / 256;
    assert b == nowMs / 0x1_0000 && c == nowMs / 0x100_0000 && d == nowMs / 0x1_0000_0000
      && e == nowMs / 0x100_0000_0000;
    assert Bytes(e, 1) == [e % 256];
    assert Bytes(d, 2) == [e % 256, d % 256];
    assert Bytes(c, 3) == [e % 256, d % 256, c % 256];
    assert Bytes(b, 4) == [e % 256, d % 256, c % 256, b % 256];
    assert Bytes(a, 5) == [e % 256, d % 256, c % 256, b % 256, a % 256];
  }

  lemma {:induction false} HexPrefix(bytes: seq<nat>, n: nat)
    requires IsBytes(bytes) && n <= |bytes|
    ensures HexAll(bytes)[..2 * n] == HexAll(bytes[..n])
    decreases |bytes|
  {
    if n == |bytes| {
      assert bytes[..n] == bytes;
    } else {
      HexPrefix(bytes[..|bytes| - 1], n);
      assert bytes[..|bytes| - 1][..n] == bytes[..n];
    }
  }

  /** The hexadecimal text begins with the twelve digits of the time. */
  lemma TimeInFront(nowMs: nat, random: seq<nat>)
    requires |random| == 16 && IsBytes(random)
    ensures HexAll(Layout(nowMs, random))[..12] == HexOf(Digits16(nowMs, 12))
  {
    var bytes := Layout(nowMs, random);
    TimeBytes(nowMs);
    assert bytes[..6] == Bytes(nowMs, 6);
    HexPrefix(bytes, 6);
    BytesAreDigits(nowMs, 6);
  }

  function DigitOf(c: char): nat {
    if '0' <= c <= '9' then (c - '0') as nat else if 'a' <= c <= 'f' then (c - 'a') as nat + 10 else 0
  }

  /** Reading the time back: the twelve digits around the first dash. */
  function TimeOf(text: string): nat
    requires |text| == 36
  {
    var digits := text[..8] + text[9..13];
    Value16(seq(12, i requires 0 <= i < 12 => DigitOf(digits[i])))
  }

  lemma DashedFront(hex: string)
    requires |hex| == 32
    ensures Dashed(hex)[..8] == hex[..8] && Dashed(hex)[8] == '-' && Dashed(hex)[9..13] == hex[8..12]
    ensures Dashed(hex)[14] == hex[12] && Dashed(hex)[19] == hex[16]
  {}

  /** For 0 <= ms < 2^48 the timestamp can be recovered. */
  lemma TimeReadsBack(nowMs: nat, random: seq<nat>)
    requires |random| == 16 && IsBytes(random) && nowMs < 0x1_0000_0000_0000
    ensures TimeOf(Text(nowMs, random)) == nowMs
  {
    var hex, digits := HexAll(Layout(nowMs, random)), Digits16(nowMs, 12);
    TimeInFront(nowMs, random);
    DashedFront(hex);
    assert hex[..8] + hex[8..12] == hex[..12];
    assert seq(12, i requires 0 <= i < 12 => DigitOf(hex[..12][i])) == digits;
    PowersOf16();
    DigitsReadBack(nowMs, 12);
  }

  lemma PowersOf16()
    ensures Pow16(12) == 0x1_0000_0000_0000
  {
    assert Pow16(4) == 0x1_0000;
    assert Pow16(8) == 0x1_0000_0000;
  }

  ghost predicate Precedes(a: string, b: string) {
    exists k :: 0 <= k < |a| && k < |b| && a[..k] == b[..k] && a[k] < b[k]
  }

  /** And a smaller ms gives a lexicographically smaller string, whatever the random bytes are. */
  lemma EarlierSortsFirst(a: nat, b: nat, r: seq<nat>, s: seq<nat>)
    requires |r| == 16 && IsBytes(r) && |s| == 16 && IsBytes(s) && a < b < 0x1_0000_0000_0000
    ensures Precedes(Text(a, r), Text(b, s))
  {
    hide Layout, HexAll, Digits16, Dashed, Precedes;
    PowersOf16();
    var k := SmallerFirst(a, b, 12);
    var x, y := HexAll(Layout(a, r)), HexAll(Layout(b, s));
    TimeInFront(a, r);
    TimeInFront(b, s);
    FirstDifference(x, y, k);
  }

  lemma FirstDifference(x: string, y: string, k: nat)
    requires |x| == 32 && |y| == 32 && k < 12 && x[..12][..k] == y[..12][..k] && x[..12][k] < y[..12][k]
    ensures Precedes(Dashed(x), Dashed(y))
  {
    var at := if k < 8 then k else k + 1;
    var a, b := Dashed(x), Dashed(y);
    DashedFront(x);
    DashedFront(y);
    forall i | 0 <= i < at ensures a[i] == b[i] {
      if i < 8 { assert a[i] == x[..12][..k][i]; } else if i > 8 { assert a[i] == x[..12][..k][i - 1]; }
    }
    assert a[..at] == b[..at] && a[at] < b[at];
  }

  lemma HexOfByte(a: nat, b: nat)
    requires a < 256 && b < 256 && Hex(a) == Hex(b)
    ensures a == b
  {
    assert HexDigit(a / 16) == Hex(a)[0] == Hex(b)[0] == HexDigit(b / 16);
    assert HexDigit(a % 16) == Hex(a)[1] == Hex(b)[1] == HexDigit(b % 16);
    assert a / 16 == b / 16 && a % 16 == b % 16;
  }

  lemma {:induction false} HexIsInjective(a: seq<nat>, b: seq<nat>)
    requires IsBytes(a) && IsBytes(b) && |a| == |b| && HexAll(a) == HexAll(b)
    ensures a == b
  {
    if a != [] {
      var n := |a| - 1;
      assert HexAll(a)[..2 * n] == HexAll(a[..n]) && HexAll(b)[..2 * n] == HexAll(b[..n]);
      assert HexAll(a)[2 * n..] == Hex(a[n]) && HexAll(b)[2 * n..] == Hex(b[n]);
      HexIsInjective(a[..n], b[..n]);
      HexOfByte(a[n], b[n]);
      assert a == a[..n] + [a[n]] && b == b[..n] + [b[n]];
    }
  }

  lemma DashedIsInjective(x: string, y: string)
    requires |x| == 32 && |y| == 32 && Dashed(x) == Dashed(y)
    ensures x == y
  {
    var a, b := Dashed(x), Dashed(y);
    assert a[..8] == x[..8] && a[9..13] == x[8..12] && a[14..18] == x[12..16] && a[19..23] == x[16..20]
      && a[24..] == x[20..];
    assert b[..8] == y[..8] && b[9..13] == y[8..12] && b[14..18] == y[12..16] && b[19..23] == y[16..20]
      && b[24..] == y[20..];
    assert x == x[..8] + x[8..12] + x[12..16] + x[16..20] + x[20..];
    assert y == y[..8] + y[8..12] + y[12..16] + y[16..20] + y[20..];
  }

  /** Two ids are the same text only if they agree in the 74 random bits that version and variant leave. */
  lemma RandomBitsTellApart(a: nat, b: nat, r: seq<nat>, s: seq<nat>)
    requires |r| == 16 && IsBytes(r) && |s| == 16 && IsBytes(s) && Text(a, r) == Text(b, s)
    ensures r[6] % 16 == s[6] % 16 && r[7] == s[7] && r[8] % 64 == s[8] % 64
    ensures forall i :: 9 <= i < 16 ==> r[i] == s[i]
  {
    hide HexAll, Dashed, TimeByte;
    var x, y := Layout(a, r), Layout(b, s);
    DashedIsInjective(HexAll(x), HexAll(y));
    HexIsInjective(x, y);
    assert x[6] == y[6] && x[7] == y[7] && x[8] == y[8];
    forall i | 9 <= i < 16 ensures r[i] == s[i] { assert x[i] == r[i] && y[i] == s[i]; }
  }

  /** Version 7 and the RFC variant are in place. */
  lemma VersionAndVariant(nowMs: nat, random: seq<nat>)
    requires |random| == 16 && IsBytes(random)
    ensures Text(nowMs, random)[14] == '7' && Text(nowMs, random)[19] in {'8', '9', 'a', 'b'}
  {
    var bytes := Layout(nowMs, random);
    HexPrefix(bytes, 7);
    HexPrefix(bytes, 9);
    assert bytes[..7][..6] == bytes[..6] && bytes[..9][..8] == bytes[..8];
    DashedFront(HexAll(bytes));
    assert HexAll(bytes)[..14][12] == Hex(bytes[6])[0];
    assert HexAll(bytes)[..18][16] == Hex(bytes[8])[0];
  }
}
