/** What UTF-8 text is: the scalar values it spells. */
module Unicode {
  import opened Wire

  /** A code point that is no surrogate. */
  type Scalar = c: int | 0 <= c <= 0xD7FF || 0xE000 <= c <= 0x10FFFF

  /** The octets of one scalar value, six bits to each behind the first (section 3 of RFC 3629). */
  function Spelling(c: Scalar): (s: Text)
    ensures 1 <= |s| <= 4
  {
    if c <= 0x7F then [c]
    else if c <= 0x7FF then [0xC0 + c / 64, 0x80 + c % 64]
    else if c <= 0xFFFF then [0xE0 + c / 4096, 0x80 + c / 64 % 64, 0x80 + c % 64]
    else [0xF0 + c / 262144, 0x80 + c / 4096 % 64, 0x80 + c / 64 % 64, 0x80 + c % 64]
  }

  function Spelt(cs: seq<Scalar>): Text {
    if cs == [] then [] else Spelling(cs[0]) + Spelt(cs[1..])
  }

  /** high with six more bits behind it. */
  function Wider(high: int, low: int): int {
    64 * high + low
  }

  lemma SixBits(high: int, low: int)
    requires 0 <= low < 64
    ensures Wider(high, low) / 64 == high && Wider(high, low) % 64 == low
  {
  }

  lemma TwoOctets(s: Text) returns (c: Scalar)
    requires |s| == 2 && CharLength(s) == 2
    ensures Spelling(c) == s
  {
    SixBits(s[0] - 0xC0, s[1] - 0x80);
    c := Wider(s[0] - 0xC0, s[1] - 0x80);
  }

  lemma ThreeOctets(s: Text) returns (c: Scalar)
    requires |s| == 3 && CharLength(s) == 3
    ensures Spelling(c) == s
  {
    var high := Wider(s[0] - 0xE0, s[1] - 0x80);
    SixBits(s[0] - 0xE0, s[1] - 0x80);
    SixBits(high, s[2] - 0x80);
    c := Wider(high, s[2] - 0x80);
    assert c / 4096 == c / 64 / 64;
  }

  lemma FourOctets(s: Text) returns (c: Scalar)
    requires |s| == 4 && CharLength(s) == 4
    ensures Spelling(c) == s
  {
    var high := Wider(s[0] - 0xF0, s[1] - 0x80);
    var higher := Wider(high, s[2] - 0x80);
    SixBits(s[0] - 0xF0, s[1] - 0x80);
    SixBits(high, s[2] - 0x80);
    SixBits(higher, s[3] - 0x80);
    c := Wider(higher, s[3] - 0x80);
    assert c / 4096 == c / 64 / 64 && c / 262144 == c / 64 / 64 / 64;
  }

  /** A character is the spelling of a scalar value. */
  lemma CharIsSpelling(s: Text) returns (c: Scalar)
    requires CharLength(s) > 0
    ensures Spelling(c) == s[..CharLength(s)]
  {
    var head := s[..CharLength(s)];
    assert CharLength(head) == |head|;
    match |head|
    case 1 => c := s[0];
    case 2 => c := TwoOctets(head);
    case 3 => c := ThreeOctets(head);
    case _ => c := FourOctets(head);
  }

  /** A spelling is a character, whatever follows. */
  lemma SpellingIsChar(c: Scalar, rest: Text)
    ensures CharLength(Spelling(c) + rest) == |Spelling(c)|
  {
  }

  /** UTF-8 is exactly what spells a sequence of scalar values. */
  lemma Utf8Exactly(s: Text)
    ensures Utf8(s) <==> exists cs: seq<Scalar> :: Spelt(cs) == s
  {
    if Utf8(s) {
      var cs := Scalars(s);
    }
    if exists cs: seq<Scalar> :: Spelt(cs) == s {
      var cs: seq<Scalar> :| Spelt(cs) == s;
      SpeltIsUtf8(cs);
    }
  }

  lemma {:induction false} Scalars(s: Text) returns (cs: seq<Scalar>)
    requires Utf8(s)
    ensures Spelt(cs) == s
  {
    cs := [];
    if s != [] {
      var c := CharIsSpelling(s);
      cs := Scalars(s[CharLength(s)..]);
      cs := [c] + cs;
    }
  }

  lemma {:induction false} SpeltIsUtf8(cs: seq<Scalar>)
    ensures Utf8(Spelt(cs))
  {
    if cs != [] {
      SpeltIsUtf8(cs[1..]);
      SpellingIsChar(cs[0], Spelt(cs[1..]));
      assert Spelt(cs)[|Spelling(cs[0])|..] == Spelt(cs[1..]);
    }
  }
}
