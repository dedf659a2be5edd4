/** Text as UTF-8. */
module Texts {
  import opened Wrappers
  import opened Hashing
  import opened Cbor

  function CharBytes(c: char): (b: seq<byte>)
    ensures 1 <= |b| <= 4
  {
    var n := c as int;
    if n < 0x80 then [n]
    else if n < 0x800 then [0xC0 + n / 0x40, 0x80 + n % 0x40]
    else if n < 0x1_0000 then [0xE0 + n / 0x1000, 0x80 + n / 0x40 % 0x40, 0x80 + n % 0x40]
    else [0xF0 + n / 0x4_0000, 0x80 + n / 0x1000 % 0x40, 0x80 + n / 0x40 % 0x40, 0x80 + n % 0x40]
  }

  function Utf8(s: string): (b: seq<byte>)
    ensures |s| <= |b| <= 4 * |s|
  {
    if s == "" then [] else CharBytes(s[0]) + Utf8(s[1..])
  }

  predicate IsScalar(n: int) {
    0 <= n < 0xD800 || 0xE000 <= n < 0x11_0000
  }

  /** The code point that well-formed text begins with, and how many bytes it takes. */
  function FirstPoint(b: seq<byte>): (r: Option<(int, nat)>)
    requires b != []
    ensures r.Some? ==> 1 <= r.value.1 <= |b|
  {
    var first: int := b[0];
    if first < 0x80 then Some((first, 1))
    else if first < 0xE0 then
      if |b| < 2 then None else Some(((first - 0xC0) * 0x40 + More(b[1]), 2))
    else if first < 0xF0 then
      if |b| < 3 then None else Some(((first - 0xE0) * 0x1000 + More(b[1]) * 0x40 + More(b[2]), 3))
    else
      if |b| < 4 then None
      else Some(((first - 0xF0) * 0x4_0000 + More(b[1]) * 0x1000 + More(b[2]) * 0x40 + More(b[3]), 4))
  }

  /** What a continuation byte carries. */
  function More(b: byte): int {
    (b as int) - 0x80
  }

  function Points(b: seq<byte>): Option<string> {
    if b == [] then Some("")
    else
      var first :- FirstPoint(b);
      if !IsScalar(first.0) then None
      else
        var more :- Points(b[first.1..]);
        Some([first.0 as char] + more)
  }

  /** The text of well-formed bytes. */
  function FromUtf8(b: seq<byte>): Option<string> {
    if ValidUtf8(b) then Points(b) else None
  }

  lemma PointOfChar(c: char, rest: seq<byte>)
    ensures FirstPoint(CharBytes(c) + rest) == Some((c as int, |CharBytes(c)|))
  {
    var n := c as int;
    var b := CharBytes(c) + rest;
    if n < 0x80 {
    } else if n < 0x800 {
      assert n == n / 0x40 * 0x40 + n % 0x40;
    } else if n < 0x1_0000 {
      var m := n / 0x40;
      assert n == m * 0x40 + n % 0x40 && m == m / 0x40 * 0x40 + m % 0x40 && n / 0x1000 == m / 0x40;
    } else {
      var m := n / 0x40;
      var l := m / 0x40;
      assert n == m * 0x40 + n % 0x40 && m == l * 0x40 + m % 0x40 && l == l / 0x40 * 0x40 + l % 0x40;
      assert n / 0x1000 == l && n / 0x4_0000 == l / 0x40;
    }
  }

  lemma ThreeIsValid(n: int)
    requires 0x800 <= n < 0x1_0000 && IsScalar(n)
    ensures n / 0x1000 == 0 ==> n / 0x40 % 0x40 >= 0x20
    ensures n / 0x1000 == 0xD ==> n / 0x40 % 0x40 < 0x20
  {
    var m := n / 0x40;
    assert n / 0x1000 == m / 0x40 && m == m / 0x40 * 0x40 + m % 0x40;
  }

  lemma FourIsValid(n: int)
    requires 0x1_0000 <= n < 0x11_0000
    ensures n / 0x4_0000 <= 4
    ensures n / 0x4_0000 == 0 ==> n / 0x1000 % 0x40 >= 0x10
    ensures n / 0x4_0000 == 4 ==> n / 0x1000 % 0x40 < 0x10
  {
    var m := n / 0x1000;
    assert n / 0x4_0000 == m / 0x40 && m == m / 0x40 * 0x40 + m % 0x40;
  }

  lemma CharIsValid(c: char, rest: seq<byte>)
    requires ValidUtf8(rest)
    ensures ValidUtf8(CharBytes(c) + rest)
  {
    var n := c as int;
    var b := CharBytes(c) + rest;
    assert b[|CharBytes(c)|..] == rest;
    if 0x800 <= n < 0x1_0000 {
      ThreeIsValid(n);
    } else if 0x1_0000 <= n {
      FourIsValid(n);
    }
  }

  /** Every text is well-formed as bytes and reads back. */
  lemma {:induction false} TextRoundTrip(s: string)
    ensures ValidUtf8(Utf8(s)) && FromUtf8(Utf8(s)) == Some(s)
  {
    if s != "" {
      TextRoundTrip(s[1..]);
      CharIsValid(s[0], Utf8(s[1..]));
      PointOfChar(s[0], Utf8(s[1..]));
      assert Utf8(s)[|CharBytes(s[0])|..] == Utf8(s[1..]);
      assert s == [s[0]] + s[1..];
    }
  }

  lemma ThreeBack(a: int, b: int, c: int)
    requires 0 <= a < 0x10 && 0 <= b < 0x40 && 0 <= c < 0x40
    ensures var n := a * 0x1000 + b * 0x40 + c;
            n / 0x1000 == a && n / 0x40 % 0x40 == b && n % 0x40 == c
  {
    assert a * 0x1000 + b * 0x40 + c == (a * 0x40 + b) * 0x40 + c;
  }

  lemma FourBack(a: int, b: int, c: int, d: int)
    requires 0 <= a < 8 && 0 <= b < 0x40 && 0 <= c < 0x40 && 0 <= d < 0x40
    ensures var n := a * 0x4_0000 + b * 0x1000 + c * 0x40 + d;
            n / 0x4_0000 == a && n / 0x1000 % 0x40 == b && n / 0x40 % 0x40 == c && n % 0x40 == d
  {
    var l := a * 0x40 + b;
    assert a * 0x4_0000 + b * 0x1000 + c * 0x40 + d == (l * 0x40 + c) * 0x40 + d;
  }

  /** Well-formed text begins with the bytes of a character. */
  lemma CharOfPoint(b: seq<byte>)
    requires b != [] && ValidUtf8(b)
    ensures var p := FirstPoint(b);
            && p.Some? && IsScalar(p.value.0) && CharBytes(p.value.0 as char) == b[..p.value.1]
            && ValidUtf8(b[p.value.1..])
  {
    if 0xE0 <= b[0] < 0xF0 {
      ThreeBack(b[0] - 0xE0, More(b[1]), More(b[2]));
    } else if 0xF0 <= b[0] {
      FourBack(b[0] - 0xF0, More(b[1]), More(b[2]), More(b[3]));
    }
  }

  lemma {:induction false} WellFormedIsText(b: seq<byte>)
    requires ValidUtf8(b)
    ensures Points(b).Some? && Utf8(Points(b).value) == b
    decreases |b|
  {
    if b != [] {
      CharOfPoint(b);
      var first := FirstPoint(b).value;
      WellFormedIsText(b[first.1..]);
      assert b == b[..first.1] + b[first.1..];
      assert ([first.0 as char] + Points(b[first.1..]).value)[1..] == Points(b[first.1..]).value;
    }
  }

  /** Bytes are accepted as a text if and only if they are how that text is written. */
  lemma TextExact(b: seq<byte>, s: string)
    ensures FromUtf8(b) == Some(s) <==> b == Utf8(s)
  {
    TextRoundTrip(s);
    if ValidUtf8(b) {
      WellFormedIsText(b);
    }
  }
}
