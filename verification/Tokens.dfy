/** Lists of tokens as a header's value holds them: cut at commas, white space around each taken off. */
module Tokens {
  import opened Wire
  import opened Unicode

  // ---------- white space ----------

  /** How many octets the white space character at the head of s takes, 0 if none starts there. */
  function SpaceAt(s: Text): (n: nat)
    ensures n <= |s|
  {
    if |s| >= 1 && (s[0] == 0x20 || 0x09 <= s[0] <= 0x0D) then 1
    else if |s| >= 2 && s[0] == 0xC2 && (s[1] == 0x85 || s[1] == 0xA0) then 2
    else if |s| >= 3 &&
            ( (s[0] == 0xE1 && s[1] == 0x9A && s[2] == 0x80)
           || (s[0] == 0xE2 && s[1] == 0x80 && (0x80 <= s[2] <= 0x8A || s[2] in {0xA8, 0xA9, 0xAF}))
           || (s[0] == 0xE2 && s[1] == 0x81 && s[2] == 0x9F)
           || (s[0] == 0xE3 && s[1] == 0x80 && s[2] == 0x80)) then 3
    else 0
  }

  /** How many the one at its end takes. */
  function SpaceBehind(s: Text): (n: nat)
    ensures n <= |s|
  {
    if |s| >= 1 && SpaceAt(s[|s| - 1..]) == 1 then 1
    else if |s| >= 2 && SpaceAt(s[|s| - 2..]) == 2 then 2
    else if |s| >= 3 && SpaceAt(s[|s| - 3..]) == 3 then 3
    else 0
  }

  function TrimLeft(s: Text): Text {
    if SpaceAt(s) > 0 then TrimLeft(s[SpaceAt(s)..]) else s
  }

  function TrimRight(s: Text): Text {
    if SpaceBehind(s) > 0 then TrimRight(s[..|s| - SpaceBehind(s)]) else s
  }

  /** strings.TrimSpace. */
  function Trimmed(s: Text): Text {
    TrimRight(TrimLeft(s))
  }

  /** Unicode's white space (property White_Space). */
  ghost predicate White(c: Scalar) {
    || 0x9 <= c <= 0xD || c == 0x20 || c == 0x85 || c == 0xA0 || c == 0x1680 || 0x2000 <= c <= 0x200A
    || c == 0x2028 || c == 0x2029 || c == 0x202F || c == 0x205F || c == 0x3000
  }

  /** Nothing but white space. */
  ghost predicate Blank(s: Text) {
    exists cs: seq<Scalar> :: Spelt(cs) == s && AllWhite(cs)
  }

  ghost predicate AllWhite(cs: seq<Scalar>) {
    forall i :: 0 <= i < |cs| ==> White(cs[i])
  }

  ghost predicate BeginsWhite(s: Text) {
    exists c: Scalar :: White(c) && Spelling(c) <= s
  }

  ghost predicate EndsWhite(s: Text) {
    exists c: Scalar :: White(c) && |Spelling(c)| <= |s| && s[|s| - |Spelling(c)|..] == Spelling(c)
  }

  /** t is what stands in s between white space. */
  ghost predicate Within(s: Text, t: Text) {
    && t != [] && !BeginsWhite(t) && !EndsWhite(t)
    && exists l: nat :: l + |t| <= |s| && s[l..l + |t|] == t && Blank(s[..l]) && Blank(s[l + |t|..])
  }

  /** The white characters are these, octet for octet. */
  lemma WhiteSpelt(c: Scalar)
    requires White(c)
    ensures SpaceAt(Spelling(c)) == |Spelling(c)| <= 3 && 0 < |Spelling(c)|
    ensures !Tail(Spelling(c)[0]) && forall i :: 0 < i < |Spelling(c)| ==> Tail(Spelling(c)[i])
  {
    if 0x2000 <= c {
      assert c / 4096 == c / 64 / 64;
    }
  }

  lemma SpaceIsWhite(s: Text) returns (c: Scalar)
    requires SpaceAt(s) > 0
    ensures White(c) && s[..SpaceAt(s)] == Spelling(c)
  {
    var head := s[..SpaceAt(s)];
    assert SpaceAt(head) == |head|;
    c := CharIsSpelling(head);
    assert CharLength(head) == |head|;
  }

  /** The character in front decides, whatever follows: no white character begins inside one. */
  lemma SpaceInFront(s: Text, rest: Text)
    requires s != [] && (rest == [] || !Tail(rest[0]))
    ensures SpaceAt(s + rest) == SpaceAt(s)
  {
  }

  lemma BeginsWhiteExactly(s: Text)
    ensures BeginsWhite(s) <==> SpaceAt(s) > 0
  {
    hide Spelling;
    if SpaceAt(s) > 0 {
      var c := SpaceIsWhite(s);
    }
    if BeginsWhite(s) {
      var c: Scalar :| White(c) && Spelling(c) <= s;
      WhiteSpelt(c);
      SpaceStays(Spelling(c), s[|Spelling(c)|..]);
      assert s == Spelling(c) + s[|Spelling(c)|..];
    }
  }

  lemma SpaceStays(s: Text, rest: Text)
    requires SpaceAt(s) > 0
    ensures SpaceAt(s + rest) == SpaceAt(s)
  {
  }

  /** The same from the other end. */
  lemma SpaceLast(s: Text, c: Scalar)
    requires White(c)
    ensures SpaceBehind(s + Spelling(c)) == |Spelling(c)|
  {
    WhiteSpelt(c);
    hide Spelling, White, SpaceAt, Tail;
    var last := Spelling(c);
    var n, all := |last|, s + last;
    assert all[|all| - n..] == last;
    if n > 1 {
      NoSpaceInside(all[|all| - 1..]);
    }
    if n > 2 {
      NoSpaceInside(all[|all| - 2..]);
    }
  }

  lemma NoSpaceInside(s: Text)
    requires s != [] && Tail(s[0])
    ensures SpaceAt(s) == 0
  {
  }

  lemma SpaceBehindIs(s: Text)
    requires SpaceBehind(s) > 0
    ensures SpaceAt(s[|s| - SpaceBehind(s)..]) == SpaceBehind(s)
  {
    hide SpaceAt;
  }

  lemma EndsWhiteExactly(s: Text)
    ensures EndsWhite(s) <==> SpaceBehind(s) > 0
    ensures SpaceBehind(s) > 0 ==> SpaceAt(s[|s| - SpaceBehind(s)..]) == SpaceBehind(s)
  {
    hide Spelling, White, SpaceAt, SpaceBehind;
    if SpaceBehind(s) > 0 {
      SpaceBehindIs(s);
      var last := s[|s| - SpaceBehind(s)..];
      var c := SpaceIsWhite(last);
      assert last[..SpaceAt(last)] == last;
    }
    if EndsWhite(s) {
      var c: Scalar :| White(c) && |Spelling(c)| <= |s| && s[|s| - |Spelling(c)|..] == Spelling(c);
      SpaceLast(s[..|s| - |Spelling(c)|], c);
      assert s == s[..|s| - |Spelling(c)|] + Spelling(c);
    }
  }

  lemma BlankNone()
    ensures Blank([])
  {
    assert Spelt([]) == [];
  }

  lemma BlankMore(c: Scalar, s: Text)
    requires White(c) && Blank(s)
    ensures Blank(Spelling(c) + s)
  {
    hide Spelling, Spelt, White;
    var cs: seq<Scalar> :| Spelt(cs) == s && AllWhite(cs);
    SpeltMore(c, cs);
    assert AllWhite([c] + cs);
  }

  lemma SpeltMore(c: Scalar, cs: seq<Scalar>)
    ensures Spelt([c] + cs) == Spelling(c) + Spelt(cs)
  {
    hide Spelling;
    assert ([c] + cs)[1..] == cs;
  }

  /** White space is empty or white space behind a white character. */
  lemma BlankFirst(s: Text) returns (c: Scalar)
    requires Blank(s) && s != []
    ensures White(c) && Spelling(c) <= s && Blank(s[|Spelling(c)|..])
  {
    hide Spelling, Spelt, White;
    var cs: seq<Scalar> :| Spelt(cs) == s && AllWhite(cs);
    SpeltNone();
    c := cs[0];
    var rest := cs[1..];
    assert cs == [c] + rest;
    SpeltMore(c, rest);
    assert s[|Spelling(c)|..] == Spelt(rest);
    assert AllWhite(rest);
  }

  lemma SpeltNone()
    ensures Spelt([]) == []
  {
  }

  lemma {:induction false} TrimLeftOff(s: Text)
    ensures |TrimLeft(s)| <= |s| && TrimLeft(s) == s[|s| - |TrimLeft(s)|..] && Blank(s[..|s| - |TrimLeft(s)|])
    ensures SpaceAt(TrimLeft(s)) == 0
  {
    hide Spelling, SpaceAt, Blank;
    BlankNone();
    if SpaceAt(s) > 0 {
      var c := SpaceIsWhite(s);
      var rest := s[SpaceAt(s)..];
      TrimLeftOff(rest);
      var off := |rest| - |TrimLeft(rest)|;
      BlankMore(c, rest[..off]);
      assert s[..|s| - |TrimLeft(s)|] == Spelling(c) + rest[..off];
    } else {
      assert s[..0] == [];
    }
  }

  lemma {:induction false} BlankJoins(a: Text, b: Text)
    requires Blank(a) && Blank(b)
    ensures Blank(a + b)
    decreases |a|
  {
    hide Spelling, Blank;
    if a == [] {
      assert a + b == b;
    } else {
      var c := BlankFirst(a);
      var rest := a[|Spelling(c)|..];
      SpellingSome(c);
      BlankJoins(rest, b);
      BlankMore(c, rest + b);
      assert a + b == Spelling(c) + (rest + b);
    }
  }

  lemma SpellingSome(c: Scalar)
    ensures |Spelling(c)| > 0
  {
  }

  lemma {:induction false} TrimRightOff(s: Text)
    ensures |TrimRight(s)| <= |s| && TrimRight(s) == s[..|TrimRight(s)|] && Blank(s[|TrimRight(s)|..])
    ensures SpaceBehind(TrimRight(s)) == 0
  {
    hide Spelling, SpaceAt, SpaceBehind, Blank;
    BlankNone();
    var n := SpaceBehind(s);
    if n > 0 {
      EndsWhiteExactly(s);
      var last, rest := s[|s| - n..], s[..|s| - n];
      var c := SpaceIsWhite(last);
      TrimRightOff(rest);
      var t := TrimRight(rest);
      BlankMore(c, []);
      assert Spelling(c) + [] == last;
      BlankJoins(rest[|t|..], last);
      assert s[|t|..] == rest[|t|..] + last;
    } else {
      assert s[|s|..] == [];
    }
  }

  lemma {:induction false} TrimLeftPast(l: Text, s: Text)
    requires Blank(l)
    ensures TrimLeft(l + s) == TrimLeft(s)
    decreases |l|
  {
    hide Spelling, SpaceAt, Blank, White;
    if l == [] {
      assert l + s == s;
    } else {
      var c := BlankFirst(l);
      var rest := l[|Spelling(c)|..];
      WhiteSpelt(c);
      SpaceStays(Spelling(c), rest + s);
      assert l + s == Spelling(c) + (rest + s);
      assert (l + s)[|Spelling(c)|..] == rest + s;
      TrimLeftPast(rest, s);
    }
  }

  lemma {:induction false} TrimRightPast(s: Text, r: Text)
    requires Blank(r)
    ensures TrimRight(s + r) == TrimRight(s)
    decreases |r|
  {
    hide Spelling, SpaceAt, SpaceBehind, Blank, White;
    if r == [] {
      assert s + r == s;
    } else {
      var c := BlankFirst(r);
      var rest := r[|Spelling(c)|..];
      SpellingSome(c);
      TrimRightPast(s + Spelling(c), rest);
      assert s + r == s + Spelling(c) + rest;
      SpaceLast(s, c);
      assert (s + Spelling(c))[..|s|] == s;
    }
  }

  lemma BlankBeginsNoTail(s: Text)
    requires Blank(s) && s != []
    ensures !Tail(s[0])
  {
    hide Spelling, Blank, White;
    var c := BlankFirst(s);
    WhiteSpelt(c);
  }

  /** What is left between white space is what TrimSpace gives, if it gives anything. */
  lemma TrimmedExactly(s: Text, t: Text)
    ensures Within(s, t) <==> t != [] && t == Trimmed(s)
  {
    hide SpaceAt, SpaceBehind, Blank, BeginsWhite, EndsWhite, Trimmed;
    if Within(s, t) {
      var l: nat :| l + |t| <= |s| && s[l..l + |t|] == t && Blank(s[..l]) && Blank(s[l + |t|..]);
      WithinIsTrimmed(s[..l], t, s[l + |t|..]);
      assert s == s[..l] + t + s[l + |t|..];
    }
    TrimmedIsWithin(s);
  }

  lemma WithinIsTrimmed(l: Text, t: Text, r: Text)
    requires Blank(l) && Blank(r) && t != [] && !BeginsWhite(t) && !EndsWhite(t)
    ensures Trimmed(l + t + r) == t
  {
    hide SpaceAt, SpaceBehind, Blank, BeginsWhite, EndsWhite;
    BeginsWhiteExactly(t);
    EndsWhiteExactly(t);
    assert l + t + r == l + (t + r);
    TrimLeftPast(l, t + r);
    if r != [] {
      BlankBeginsNoTail(r);
    }
    SpaceInFront(t, r);
    TrimRightPast(t, r);
  }

  lemma TrimmedIsWithin(s: Text)
    ensures Trimmed(s) != [] ==> Within(s, Trimmed(s))
  {
    hide SpaceAt, SpaceBehind, Blank, BeginsWhite, EndsWhite, TrimLeft, TrimRight;
    var u, t := TrimLeft(s), Trimmed(s);
    TrimLeftOff(s);
    TrimRightOff(u);
    BeginsWhiteExactly(t);
    EndsWhiteExactly(t);
    var l := |s| - |u|;
    assert s[l..l + |t|] == u[..|t|] && s[l + |t|..] == u[|t|..];
    assert SpaceAt(t) == 0 by {
      assert u == t + u[|t|..];
      SpaceNotBefore(t, u[|t|..]);
    }
  }

  lemma SpaceNotBefore(s: Text, rest: Text)
    requires SpaceAt(s + rest) == 0
    ensures SpaceAt(s) == 0
  {
    if SpaceAt(s) > 0 {
      SpaceStays(s, rest);
    }
  }

  // ---------- commas ----------

  /** The parts between commas; sofar is the part that is open. */
  function Split(sofar: Text, s: Text): seq<Text>
    decreases |s|
  {
    if s == [] then [sofar]
    else if s[0] == 0x2C then [sofar] + Split([], s[1..])
    else Split(sofar + [s[0]], s[1..])
  }

  /** v[i..j] stands between two commas of v, or its ends. */
  ghost predicate Between(v: Text, i: int, j: int) {
    && 0 <= i <= j <= |v|
    && (forall k :: i <= k < j ==> v[k] != 0x2C)
    && (i == 0 || v[i - 1] == 0x2C)
    && (j == |v| || v[j] == 0x2C)
  }

  /** The part from i on is open, up to k. */
  lemma {:induction false} SplitExactly(v: Text, i: nat, k: nat, p: Text)
    requires i <= k <= |v| && (i == 0 || v[i - 1] == 0x2C) && forall m :: i <= m < k ==> v[m] != 0x2C
    ensures p in Split(v[i..k], v[k..]) <==> exists a, b :: i <= a && Between(v, a, b) && v[a..b] == p
    decreases |v| - k
  {
    hide Between;
    var rest := v[k..];
    if k == |v| {
      OnePart(v, i, k, p);
      assert Split(v[i..k], rest) == [v[i..k]];
    } else if v[k] == 0x2C {
      OnePart(v, i, k, p);
      SplitExactly(v, k + 1, k + 1, p);
      assert rest[1..] == v[k + 1..] && v[k + 1..k + 1] == [];
    } else {
      SplitExactly(v, i, k + 1, p);
      assert rest[1..] == v[k + 1..] && v[i..k] + [v[k]] == v[i..k + 1];
    }
  }

  lemma OnePart(v: Text, i: nat, k: nat, p: Text)
    requires i <= k <= |v| && (i == 0 || v[i - 1] == 0x2C) && forall m :: i <= m < k ==> v[m] != 0x2C
    requires k == |v| || v[k] == 0x2C
    ensures (exists a, b :: i <= a && Between(v, a, b) && v[a..b] == p)
       <==> v[i..k] == p || (k < |v| && exists a, b :: k + 1 <= a && Between(v, a, b) && v[a..b] == p)
  {
    assert Between(v, i, k);
    forall a, b | i <= a && Between(v, a, b) ensures (a == i && b == k) || k + 1 <= a {
    }
  }
}
